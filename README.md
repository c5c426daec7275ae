# AutoWiFi in Dafny

A model of the `AutoWiFi` class (src/AutoWiFi.cpp), the boot-time network
provisioning component of an ESP32 node, with proofs of what it promises.
On every `connect` the component first runs a boot-loop detector. This is a
persisted `boot_count` that is incremented and written back at once. At 4
the `wifi` and `boot` namespaces are cleared and the chip restarts. Below 4
a deferred task writes 0 back after 4 s. The component then reads the stored
station credentials. If either half is empty it starts a soft access point,
gated on a non-empty ssid and a password of at least 8 characters, and
registers a provisioning handler. Otherwise it joins the network and waits
up to 10 s, polling every 500 ms. The OTA listener is started only after a
successful join, with the same gate on its own credentials. `loop` picks one
action per tick: service the beacon in AP mode, reconnect (and restart after
10 s if that fails) when not connected or the link is down, or service OTA.

Modules, one per concern of the class:

- `Storage` (storage.dfy): the namespaced key-value store as a
  `map<string, map<string, Value>>`, with read-with-default, atomic write of
  entries, and clear of namespaces.
- `Credentials` (credentials.dfy): the three credential pairs (`wifi`, `ap`,
  `OTA`), their getters and setters, and the 8-character gate.
- `BootLoop` (boot_loop.dfy): `checkForDeviceReset` and `bootResetTask` on
  the store, and what a run of successive boot checks does to the counter.
- `Provisioning` (provisioning.dfy): the handler lambda registered with the
  beacon.
- `Connection` (connection.dfy): the `State` and `OTAState` enums, the
  decisions of `startAccessPoint`, `setupOTA`, `connect` and `loop`, and the
  polling loop of `waitForWiFiConnection`.
- `Machine` (machine.dfy): the whole object plus its environment as a value
  (`Snapshot`), and what `checkForDeviceReset`, `connect`,
  `handleDisconnected` and `loop` make of it.
- `Device` (device.dfy): the class `AutoWiFi` itself. Its fields `state` and
  `otaState` are updated in place. The store is a field the methods
  reassign. Spawned tasks are a pending list, and calls into the radio, the
  beacon, OTA and the chip are an effect log. Every method is proved to
  follow the value model, and `getState` is the field `state` itself.
- `Scenarios` (scenarios.dfy): concrete provisioning, gating and OTA
  situations, stated on the value model.

Foreign inputs are parameters:

- the link status at each poll of the join wait is a function
  `link: nat -> bool` (poll k happens k * 500 ms after `WiFi.begin`);
- the result of `WiFi.softAP` is `softApOk`;
- `WiFi.status()` in `loop` is `linkUp`;
- the result of `MicroStorage::clear` is `clearOk`.

`ESP.restart()` sets `restarted` and logs `Restart(delayMs)`. Every method
that changes the object or the store requires a running process
(`!restarted`).

Notes on how the code behaves, which the model keeps:

- The four namespaces are `wifi`, `ap`, `OTA` (upper case) and `boot`.
- The boot check runs inside `connect` (src/AutoWiFi.cpp:15). A reconnect
  from `loop` therefore increments `boot_count` too, not only a process
  start (`Machine.ReconnectCountsAsBoot`).
- `connect` blocks in the join wait after its boot check has spawned the
  4 s reset. A wait longer than 4 s (every failed join takes the full
  10 s, and a join first seen at the tenth poll or later takes 4.5 s or
  more) lets that reset run before `connect` returns, so the counter is
  back at 0 (`Machine.ConnectSpec`, `Machine.FailedJoinForgives`,
  `Scenarios.LateJoinForgives`). Only a `connect` that takes the access
  point path, or joins within 4 s, returns with the counter one higher and
  the reset pending.
- A reconnect that fails blocks for 10 s before restarting, which outlasts
  the 4 s grace window, so the counter reads 0 by the time the chip
  restarts (`Machine.FailedReconnectOutlivesGrace`).
- The handler restarts only on a `restart` property equal to `"true"`
  exactly.
- `handleDisconnected` blocks for 10 s and then restarts (src/AutoWiFi.cpp:176-179).
  This is a synchronous restart, not a scheduled one.

## Model

| member | source | states |
|---|---|---|
| `Storage.GetPair` | src/AutoWiFi.cpp:133-138 | an absent key reads as `""`; a stored string entry is returned as stored; a non-empty result is a stored string entry |
| `Storage.PutPair` | src/AutoWiFi.cpp:126-131 | after the write, reading the two (distinct) keys gives the two values; every other key of every namespace is unchanged |
| `Storage.GetInt` | src/AutoWiFi.cpp:192 | an absent key reads as the default; otherwise the result is the default or the stored integer |
| `Storage.PutInt` | src/AutoWiFi.cpp:194 | the key then reads as the value written; every other entry is unchanged |
| `Storage.Clear` | src/AutoWiFi.cpp:201 | every key of a cleared namespace reads as absent; other namespaces are unchanged |
| `Credentials.WiFiCredentials` | src/AutoWiFi.cpp:163-165 | each half of the station pair is the stored `wifi` string entry, `""` when absent |
| `Credentials.ApCredentials` | src/AutoWiFi.cpp:145-147 | each half of the access point pair is the stored `ap` string entry, `""` when absent |
| `Credentials.OtaCredentials` | src/AutoWiFi.cpp:154-156 | host name and password are the stored `OTA` string entries, `""` when absent |
| `Credentials.PutWiFiCredentials` | src/AutoWiFi.cpp:158-161 | `wifi`/`ssid` and `wifi`/`password` then hold the two strings; every other namespace is unchanged |
| `Credentials.PutApCredentials` | src/AutoWiFi.cpp:140-143 | `ap`/`ssid` and `ap`/`password` then hold the two strings; every other namespace is unchanged |
| `Credentials.PutOtaCredentials` | src/AutoWiFi.cpp:149-152 | `OTA`/`hostName` and `OTA`/`password` then hold the two strings; every other namespace is unchanged |
| `Credentials.Usable` | src/AutoWiFi.cpp:51 | the gate of the access point and of OTA (line 232 too) is stricter than the station's "both halves set" test: a usable pair always has both halves |
| `Credentials.WiFiCredentialsRoundTrip` | src/AutoWiFi.cpp:158-165 | `getWiFiCredentials` after `setWiFiCredentials(s, p)` gives `(s, p)`; the `ap` and `OTA` pairs are unchanged |
| `Credentials.ApCredentialsRoundTrip` | src/AutoWiFi.cpp:140-147 | the same round trip for the `ap` pair, leaving `wifi` and `OTA` unchanged |
| `Credentials.OtaCredentialsRoundTrip` | src/AutoWiFi.cpp:149-156 | the same round trip for the `OTA` pair, leaving `wifi` and `ap` unchanged |
| `BootLoop.CheckBoot` | src/AutoWiFi.cpp:191-206 | the count is the stored count (0 if absent) plus one and is written back with nothing else changed; the wipe path is taken exactly when the count is at least 4; a successful clear leaves empty station credentials and a counter reading 0, with the `ap` and `OTA` pairs kept; a failed clear leaves the incremented count; below 4 the store is the incremented one |
| `BootLoop.BootWrites` | src/AutoWiFi.cpp:192-201 | the first durable write is the store with the incremented count; a second write exists exactly on the wipe path when the clear succeeds, and it is that store with `wifi` and `boot` cleared; the last write is the store the check leaves |
| `BootLoop.ResetBootCount` | src/AutoWiFi.cpp:219-222 | the deferred task leaves the counter reading 0 and changes no other key |
| `BootLoop.ResetBootCountIdempotent` | src/AutoWiFi.cpp:222 | running the deferred reset twice is the same as running it once |
| `BootLoop.AfterLifetime` | src/AutoWiFi.cpp:191-222 | the counter a boot check leaves for the next one: below 4, the incremented count, or 0 when the deferred reset ran first; at 4 or more, 0 after a successful clear and the incremented count after a failed one |
| `BootLoop.AfterLifetimeCredentials` | src/AutoWiFi.cpp:198-222 | across a boot check and its deferred reset the `ap` and `OTA` pairs are kept; the `wifi` pair is kept unless a wipe succeeded, which empties it |
| `BootLoop.ResetKeepsCredentials` | src/AutoWiFi.cpp:222 | the deferred reset changes none of the three credential pairs |
| `BootLoop.CountsSeen` | src/AutoWiFi.cpp:191-222 | one count per call of `checkForDeviceReset` in a run (a call comes from a process start or from a reconnect in `loop`; between two calls, some pending deferred reset, the latest call's or an earlier one's, may have written 0); the first sees the stored count plus one |
| `BootLoop.CountsFrom` | src/AutoWiFi.cpp:191-222 | the same counts computed on the counter alone, one per boot check |
| `BootLoop.CountsSeenByCounter` | src/AutoWiFi.cpp:192-206 | what a run of boot checks sees depends only on the stored counter, not on anything else in the store |
| `BootLoop.CountsCycle` | src/AutoWiFi.cpp:198-206 | on the counter alone, successful clears with no deferred reset make the counts cycle (c + i) mod 4 + 1 |
| `BootLoop.FastBootsClimb` | src/AutoWiFi.cpp:192-198 | with no deferred reset (of any check) landing between the checks, check i sees the starting count plus i plus one, for as long as the threshold is not reached |
| `BootLoop.FourFastBootsWipe` | src/AutoWiFi.cpp:198-206 | four consecutive boot checks with no deferred reset (of any check) landing between them always reach the wipe, from any non-negative stored count |
| `BootLoop.FastBootsCycle` | src/AutoWiFi.cpp:198-206 | with successful clears and no deferred reset, the counts cycle (c + i) mod 4 + 1 |
| `BootLoop.ForgivenBootsStayAtOne` | src/AutoWiFi.cpp:208-222 | when a deferred reset lands after every check, starting from 0, every check sees exactly 1 |
| `BootLoop.FailedClearRetriesWipe` | src/AutoWiFi.cpp:194-205 | a wipe whose clear fails leaves the counter so that the next boot wipes again |
| `Provisioning.Property` | src/AutoWiFi.cpp:80-81 | an absent property reads as `""`, a present one as its value |
| `Provisioning.HandleMessage` | src/AutoWiFi.cpp:63-90 | a restart is scheduled exactly when `restart` is `"true"`, with reply `"restarting in 5 seconds"` and the store unchanged; otherwise an empty `ssid` or `password` gives `"Missing SSID or password"` with the store unchanged; `"Credentials saved."` exactly when both are non-empty, and then the `wifi` pair reads back as sent and no other namespace changes |
| `Connection.StopPoll` | src/AutoWiFi.cpp:183-186 | the poll at which the wait stops: the first from the given one on that sees the link up, or the last poll (10 s) when none does |
| `Connection.Joined` | src/AutoWiFi.cpp:181-189 | the wait ends connected exactly when the link is up at one of the polls at 0, 500, ..., 10000 ms |
| `Connection.JoinWaitMs` | src/AutoWiFi.cpp:182-186 | the wait blocks a multiple of 500 ms and never past 10 s; the full 10 s when the link never comes up; when it does, up to the first poll that sees it |
| `Connection.WaitForWiFiConnection` | src/AutoWiFi.cpp:181-189 | the polling loop returns the outcome `Joined` gives and blocks for the time `JoinWaitMs` gives |
| `Connection.AccessPointState` | src/AutoWiFi.cpp:48-59 | `AP_MODE` exactly when the ssid is non-empty, the password has at least 8 characters and the soft AP started; never `WIFI_CONNECTED` |
| `Connection.OtaSetupState` | src/AutoWiFi.cpp:229-241 | `OTA_INITIALIZED` exactly when the host name is non-empty and the password has at least 8 characters |
| `Connection.ConnectState` | src/AutoWiFi.cpp:17-25 | `WIFI_CONNECTED` exactly when both station credentials are non-empty and the link came up; `AP_MODE` exactly when a station credential is empty and the access point started |
| `Connection.TickBranch` | src/AutoWiFi.cpp:96-104 | the beacon exactly in `AP_MODE`; a reconnect exactly when not connected or connected with the link down; OTA exactly when connected, the link up and OTA initialised |
| `Machine.AccessPointEffects` | src/AutoWiFi.cpp:48-93 | no radio call when the gate refuses; the handler is registered exactly when the access point state is `AP_MODE` |
| `Machine.OtaEffects` | src/AutoWiFi.cpp:232-239 | the OTA listener is started exactly when `setupOTA` returns `OTA_INITIALIZED` |
| `Machine.ResetCheck` | src/AutoWiFi.cpp:191-217 | restart exactly when the incremented count reaches 4, with no deferred reset spawned on that path; otherwise exactly one deferred reset is spawned and the counter is one higher; the two state fields are untouched |
| `Machine.WithoutResets` | src/AutoWiFi.cpp:208-216 | the pending tasks with every boot reset removed and every other task kept |
| `Machine.RunPendingResets` | src/AutoWiFi.cpp:219-222 | the pending boot resets running while the caller blocks: the counter reads 0, no boot reset is left pending, the other tasks and the object's fields are kept |
| `Machine.ConnectSpec` | src/AutoWiFi.cpp:14-36 | the boot check always runs first and its restart ends the call; a connect that returns within 4 s of the check leaves the counter one higher with its reset pending; a join wait longer than 4 s lets the pending resets run, so the counter reads 0 and no reset is left; the access point path is taken exactly when a station credential is empty, the join otherwise; a connect that carries on never changes a credential; `otaState` changes only when the result is `WIFI_CONNECTED`, and then follows the OTA gate |
| `Machine.Route` | src/AutoWiFi.cpp:17-33 | after the boot check: the state is the one `ConnectState` gives for the stored credentials; a join wait longer than 4 s runs the pending resets, otherwise the store and the pending tasks are untouched; the restart flag is untouched, and `otaState` changes only when the state is `WIFI_CONNECTED` |
| `Machine.ChooseNetwork` | src/AutoWiFi.cpp:17-25 | the access point calls when a station credential is empty, one join request otherwise; the state `ConnectState` gives; a join wait longer than 4 s runs the pending resets |
| `Machine.StartOta` | src/AutoWiFi.cpp:31-33 | `setupOTA` runs exactly when the state is `WIFI_CONNECTED`, following the OTA gate on the stored pair; nothing changes otherwise |
| `Machine.BootCheckKeepsCredentials` | src/AutoWiFi.cpp:192-194 | a boot check that does not wipe leaves all three credential pairs unchanged |
| `Machine.FailedJoinForgives` | src/AutoWiFi.cpp:14-46 | with station credentials and a stored count below 3, a join that never comes up blocks for 10 s, so `connect` returns with the counter at 0 and the next boot check cannot wipe |
| `Machine.HandleDisconnectedSpec` | src/AutoWiFi.cpp:167-179 | a restart after 10 s is issued exactly when the reconnect leaves the device not connected; otherwise the result is that of `connect`, and a process that carries on is never left not connected; on the 10 s restart every pending boot reset has run (10 s > 4 s), so the counter reads 0, no boot reset is left pending and the credentials are unchanged |
| `Machine.RestartAfterFailure` | src/AutoWiFi.cpp:172-179 | the 10 s blocking delay and the restart: the restart is logged with its 10 s delay; pending boot resets run during the delay, and without any the store is unchanged |
| `Machine.ReconnectSettlesOnce` | src/AutoWiFi.cpp:167-179 | after a failed reconnect a boot reset is still pending exactly when its `connect` did not already run it during the join wait |
| `Machine.FailedReconnectOutlivesGrace` | src/AutoWiFi.cpp:170-179 | the store a failed reconnect hands to the next process is the one a boot check followed by its deferred reset leaves (`AfterLifetime` with the grace window outlived) |
| `Machine.TickSpec` | src/AutoWiFi.cpp:96-104 | AP mode only services the beacon; a healthy station link only services OTA, and only once it is initialised; every other tick is `handleDisconnected`; only a reconnect changes the store |
| `Machine.ReconnectCountsAsBoot` | src/AutoWiFi.cpp:167-179 | a reconnect tick below the threshold whose `connect` returns within 4 s and carries on raises the persisted boot counter by one and spawns another deferred reset; one whose join wait is longer, and one that fails and restarts, leave the counter at 0 with no boot reset pending |
| `Machine.ConnectSettlesResets` | src/AutoWiFi.cpp:14-36 | after a `connect` that carries on, the counter reads 0 whenever no boot reset is pending |
| `Machine.TickKeepsResetsSettled` | src/AutoWiFi.cpp:96-104 | a tick that carries on keeps that invariant |
| `Machine.ProvisioningRestartForgiven` | src/AutoWiFi.cpp:64-77 | the handler's restart fires 5 s after the request, after every 4 s reset spawned before it; with none pending, the process it ends hands on a counter of 0, so the next boot check cannot wipe credentials the handler saved |
| `Device.AutoWiFi.constructor` | src/AutoWiFi.cpp:12 | starts `NOT_CONNECTED`, OTA not connected, over the persisted store, with nothing spawned or called |
| `Device.AutoWiFi.Commit` | src/AutoWiFi.cpp:127-130 | one durable `MicroStorage::set`: the store becomes the value written and the write is logged once |
| `Device.AutoWiFi.GetIP` | src/AutoWiFi.cpp:106-116 | 0.0.0.0 when not connected, the station address when connected, the soft AP address in AP mode |
| `Device.AutoWiFi.SetCredentials` | src/AutoWiFi.cpp:126-131 | the store becomes the atomic two-entry write, recorded as one durable write; the pair reads back |
| `Device.AutoWiFi.SetAccessPointCredentials` | src/AutoWiFi.cpp:140-143 | the `ap` pair reads back as written; the `wifi` and `OTA` pairs are unchanged |
| `Device.AutoWiFi.SetOTACredentials` | src/AutoWiFi.cpp:149-152 | the `OTA` pair reads back as written; the `wifi` and `ap` pairs are unchanged |
| `Device.AutoWiFi.SetWiFiCredentials` | src/AutoWiFi.cpp:158-161 | the `wifi` pair reads back as written; the `ap` and `OTA` pairs are unchanged |
| `Device.AutoWiFi.CheckForDeviceReset` | src/AutoWiFi.cpp:191-217 | the object follows `ResetCheck`; the durable writes are the increment and then, on a successful wipe, the clear |
| `Device.AutoWiFi.RunTask` | src/AutoWiFi.cpp:219-227 | the chosen pending task is removed; the boot reset task writes 0 to the counter as one durable write; the handler's restart task restarts without touching the store, and is never run ahead of a boot reset spawned before it |
| `Device.AutoWiFi.SettleResets` | src/AutoWiFi.cpp:219-222 | the object follows `RunPendingResets`, as one durable write of the counter at 0 |
| `Device.AutoWiFi.ConnectToWiFi` | src/AutoWiFi.cpp:38-46 | one join request with the given credentials; `WIFI_CONNECTED` exactly when the link came up within the wait; a wait longer than 4 s runs the pending boot resets as one durable write, a shorter one leaves the store and the tasks as they were |
| `Device.AutoWiFi.StartAccessPoint` | src/AutoWiFi.cpp:48-94 | returns the gated access point state for the stored `ap` pair and makes exactly the gated calls |
| `Device.AutoWiFi.SetupOTA` | src/AutoWiFi.cpp:229-242 | returns the gated OTA state for the stored `OTA` pair and starts the listener exactly when it passes |
| `Device.AutoWiFi.Connect` | src/AutoWiFi.cpp:14-36 | the object follows `ConnectSpec`; the durable writes are those of the boot check, then the reset's write when the join wait outlasts 4 s |
| `Device.AutoWiFi.RouteAfterBootCheck` | src/AutoWiFi.cpp:17-33 | the object follows `Route`: the state, the OTA state, the calls made after the boot check and the reset run during a long join wait |
| `Device.AutoWiFi.ReachNetwork` | src/AutoWiFi.cpp:17-25 | the object follows `ChooseNetwork`; the only durable write is the reset's, when the join wait outlasts 4 s |
| `Device.AutoWiFi.HandleDisconnected` | src/AutoWiFi.cpp:167-179 | the object follows `HandleDisconnectedSpec`; the counter's reset is written once, during the join wait or during the 10 s delay, whenever the reconnect fails or its join wait outlasts 4 s |
| `Device.AutoWiFi.RestartAfterFailedReconnect` | src/AutoWiFi.cpp:172-179 | the object follows `RestartAfterFailure`; one durable write exactly when a boot reset was pending |
| `Device.AutoWiFi.Loop` | src/AutoWiFi.cpp:96-104 | the object follows `TickSpec`; durable writes happen only on a reconnect tick |
| `Device.AutoWiFi.OnMessage` | src/AutoWiFi.cpp:63-90 | reply and store follow `HandleMessage`; a restart task with a 5 s delay is spawned exactly when a restart was requested; a save is one durable write |
| `Scenarios.ShortApPasswordRefused` | src/AutoWiFi.cpp:48-54 | no station credentials and a 7-character AP password: `connect` ends not connected without any radio call |
| `Scenarios.ProvisioningSavesCredentials` | src/AutoWiFi.cpp:63-93 | usable AP credentials: `connect` ends in AP mode with the handler registered; `{ssid:"x", password:"y"}` is saved and read back, an empty ssid is refused without a write, a restart request is acknowledged and scheduled |
| `Scenarios.StationWithOtaGate` | src/AutoWiFi.cpp:229-241 | stored credentials and a link up at the second poll give `WIFI_CONNECTED` after at most 500 ms, with the counter at 1 and the reset pending; a 1-character OTA password leaves OTA off, an 8-character one starts it |
| `Scenarios.LateJoinForgives` | src/AutoWiFi.cpp:14-46 | a stored count of 2 and a link first up at the tenth poll: the wait blocks 4.5 s and `connect` returns `WIFI_CONNECTED` with the counter at 0 and no reset pending |

## Left out

- Serial logging (`Serial.println`, `Serial.printf`, `Serial.print`) and the IP printout in `connect`: output only.
- `getMac` and the addresses returned by `WiFi.localIP` and `WiFi.softAPIP`: radio calls. `GetIP` takes the two addresses as parameters.
- The radio itself: `WiFi.begin`, `WiFi.softAP` and `WiFi.status` are inputs (`link`, `softApOk`, `linkUp`), and the model records only that the calls were made.
- Connection.WaitForWiFiConnection: wall-clock time is not modelled. Every poll is taken to last exactly 500 ms, and the final `WiFi.status()` read is taken to see the same status as the last check of the loop. The returned `elapsedMs` is the model's stand-in for `millis() - start`.
- FreeRTOS timing: a spawned task is a pending entry that the scheduler runs at some later point (`RunTask`). Time is modelled only where the component blocks. The join wait blocks for `JoinWaitMs`; when that is longer than `BootResetDelayMs` (4 s), every pending boot reset runs before `connect` returns. The 10 s delay of `handleDisconnected` runs every reset still pending before the restart. Otherwise the only ordering kept is that the handler's 5 s restart task never runs ahead of a boot reset spawned before it. The 5 s delay is recorded in `RestartTask`; the 4 s delay enters only through that comparison. A handler restart task still pending while `connect` or `handleDisconnected` blocks is not taken to fire during the block.
- A join wait of exactly 4 s (the link first up at the ninth poll, 4000 ms after `WiFi.begin`) is taken to end before the boot reset runs. In the source the two race: the reset was spawned shortly before `WiFi.begin`.
- Pending boot resets that run during one blocking wait all write the same 0, so the commit log records that value once (`BootLoop.ResetBootCountIdempotent`).
- Provisioning.Property: the beacon's `Message::getProperty` is not part of this model. An absent property is taken to read as `""`, which is the library's behaviour only as far as the handler's empty-string tests suggest.
- `ArduinoOTA` and the beacon transport: only the calls into them are recorded. Messages reach `OnMessage` directly rather than through `_beacon.loop()`.
- MicroStorage internals: an entry of the other kind (an integer read as a string or the reverse) is taken to read as the default. A failed `clear` is taken to leave the store unchanged.
- `boot_count` is an unbounded integer. The source's 32-bit `int` could only wrap after about 2^31 boots whose clear keeps failing.
- String lengths are counted in characters. The source's `String::length()` counts bytes, and the two agree for ASCII credentials.
- src/AutoWiFi.h: it declares an interface (`void connect()`, `update()`, `isConnected()`) that the .cpp does not implement, and holds no logic.
