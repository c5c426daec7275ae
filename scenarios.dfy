/** Concrete situations the component is designed for, stated on the
    value model. */
module Scenarios {
  import opened Storage
  import opened Credentials
  import opened BootLoop
  import opened Provisioning
  import opened Connection
  import opened Machine

  /** No station credentials and an access point password of seven
      characters: the access point is refused and `connect` ends up not
      connected, without starting the soft AP. */
  lemma ShortApPasswordRefused(d: Snapshot, softApOk: bool, link: nat -> bool)
    requires !d.restarted && StoredBootCount(d.store) == 0
    requires WiFiCredentials(d.store) == ("", "")
    requires ApCredentials(d.store) == ("ap", "1234567")
    ensures ConnectSpec(d, true, softApOk, link).state == NotConnected
    ensures ConnectSpec(d, true, softApOk, link).effects == d.effects
  {
  }

  /** Usable access point credentials and a soft AP that starts: `connect`
      ends in access point mode with the handler registered; a request
      carrying both credentials is then saved and read back. */
  lemma ProvisioningSavesCredentials(d: Snapshot, link: nat -> bool)
    requires !d.restarted && StoredBootCount(d.store) == 0
    requires WiFiCredentials(d.store) == ("", "")
    requires ApCredentials(d.store) == ("ap", "longenough1")
    ensures ConnectSpec(d, true, true, link).state == ApMode
    ensures ConnectSpec(d, true, true, link).effects == d.effects + [SoftAp("ap", "longenough1"), BeaconBegin]
    ensures HandleMessage(map["ssid" := "x", "password" := "y"], d.store).reply == SavedReply
    ensures WiFiCredentials(HandleMessage(map["ssid" := "x", "password" := "y"], d.store).store) == ("x", "y")
    ensures HandleMessage(map["ssid" := "", "password" := "y"], d.store) == HandlerResult(MissingReply, d.store, false)
    ensures HandleMessage(map["restart" := "true"], d.store) == HandlerResult(RestartReply, d.store, true)
  {
  }

  /** Stored credentials and a link that is up at the second poll: station
      mode after a 500 ms wait, with the boot reset still pending, and the
      OTA listener starts only with an eight-character password. */
  lemma StationWithOtaGate(d: Snapshot, link: nat -> bool)
    requires !d.restarted && StoredBootCount(d.store) == 0
    requires WiFiCredentials(d.store) == ("homenet", "secretpw")
    requires link(1)
    ensures LinkUpWithin(link) && JoinWaitMs(link) <= PollIntervalMs
    ensures ConnectSpec(d, true, false, link).state == WifiConnected
    ensures StoredBootCount(ConnectSpec(d, true, false, link).store) == 1
    ensures ConnectSpec(d, true, false, link).tasks == d.tasks + [BootResetTask]
    ensures OtaCredentials(d.store) == ("host", "p") ==>
              ConnectSpec(d, true, false, link).otaState == OtaNotConnected
    ensures OtaCredentials(d.store) == ("host", "12345678") ==>
              ConnectSpec(d, true, false, link).otaState == OtaInitialized
  {
  }

  /** A link that first shows up at the tenth poll: the join wait blocks
      4.5 s, the boot reset runs meanwhile, and `connect` returns with the
      counter at 0 even from a stored count of 2. */
  lemma LateJoinForgives(d: Snapshot, link: nat -> bool)
    requires !d.restarted && StoredBootCount(d.store) == 2
    requires WiFiCredentials(d.store) == ("homenet", "secretpw")
    requires link(9) && forall k :: 0 <= k < 9 ==> !link(k)
    ensures JoinWaitMs(link) == 4500
    ensures ConnectSpec(d, true, false, link).state == WifiConnected
    ensures StoredBootCount(ConnectSpec(d, true, false, link).store) == 0
    ensures BootResetTask !in ConnectSpec(d, true, false, link).tasks
  {
  }
}
