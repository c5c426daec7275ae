/** The three credential pairs the component keeps in the store, and the
    rule that gates the access point and the OTA listener on them. */
module Credentials {
  import opened Storage

  const WifiNs := "wifi"
  const ApNs := "ap"
  const OtaNs := "OTA"

  const SsidKey := "ssid"
  const PasswordKey := "password"
  const HostNameKey := "hostName"

  /** Shortest password the access point and the OTA listener accept. */
  const MinPasswordLength := 8

  /** `getWiFiCredentials`: the station (ssid, password), each half the stored string or `""`. */
  function WiFiCredentials(store: Store): (r: (string, string))
    ensures Lookup(store, WifiNs, SsidKey) == None ==> r.0 == ""
    ensures Lookup(store, WifiNs, PasswordKey) == None ==> r.1 == ""
    ensures Lookup(store, WifiNs, SsidKey).Some? && Lookup(store, WifiNs, SsidKey).value.StringValue? ==>
              r.0 == Lookup(store, WifiNs, SsidKey).value.s
    ensures Lookup(store, WifiNs, PasswordKey).Some? && Lookup(store, WifiNs, PasswordKey).value.StringValue? ==>
              r.1 == Lookup(store, WifiNs, PasswordKey).value.s
  {
    GetPair(store, WifiNs, SsidKey, PasswordKey)
  }

  /** `getAPCredentials`: the access point (ssid, password). */
  function ApCredentials(store: Store): (r: (string, string))
    ensures Lookup(store, ApNs, SsidKey) == None ==> r.0 == ""
    ensures Lookup(store, ApNs, PasswordKey) == None ==> r.1 == ""
    ensures Lookup(store, ApNs, SsidKey).Some? && Lookup(store, ApNs, SsidKey).value.StringValue? ==>
              r.0 == Lookup(store, ApNs, SsidKey).value.s
    ensures Lookup(store, ApNs, PasswordKey).Some? && Lookup(store, ApNs, PasswordKey).value.StringValue? ==>
              r.1 == Lookup(store, ApNs, PasswordKey).value.s
  {
    GetPair(store, ApNs, SsidKey, PasswordKey)
  }

  /** `getOTACredentials`: the OTA (hostName, password). */
  function OtaCredentials(store: Store): (r: (string, string))
    ensures Lookup(store, OtaNs, HostNameKey) == None ==> r.0 == ""
    ensures Lookup(store, OtaNs, PasswordKey) == None ==> r.1 == ""
    ensures Lookup(store, OtaNs, HostNameKey).Some? && Lookup(store, OtaNs, HostNameKey).value.StringValue? ==>
              r.0 == Lookup(store, OtaNs, HostNameKey).value.s
    ensures Lookup(store, OtaNs, PasswordKey).Some? && Lookup(store, OtaNs, PasswordKey).value.StringValue? ==>
              r.1 == Lookup(store, OtaNs, PasswordKey).value.s
  {
    GetPair(store, OtaNs, HostNameKey, PasswordKey)
  }

  /** The store after `setWiFiCredentials`: both entries written, every
      other namespace untouched. */
  function PutWiFiCredentials(store: Store, ssid: string, password: string): (r: Store)
    ensures Lookup(r, WifiNs, SsidKey) == Some(StringValue(ssid))
    ensures Lookup(r, WifiNs, PasswordKey) == Some(StringValue(password))
    ensures forall n, k :: n != WifiNs ==> Lookup(r, n, k) == Lookup(store, n, k)
  {
    PutPair(store, WifiNs, SsidKey, ssid, PasswordKey, password)
  }

  /** The store after `setAccessPointCredentials`. */
  function PutApCredentials(store: Store, ssid: string, password: string): (r: Store)
    ensures Lookup(r, ApNs, SsidKey) == Some(StringValue(ssid))
    ensures Lookup(r, ApNs, PasswordKey) == Some(StringValue(password))
    ensures forall n, k :: n != ApNs ==> Lookup(r, n, k) == Lookup(store, n, k)
  {
    PutPair(store, ApNs, SsidKey, ssid, PasswordKey, password)
  }

  /** The store after `setOTACredentials`. */
  function PutOtaCredentials(store: Store, hostName: string, password: string): (r: Store)
    ensures Lookup(r, OtaNs, HostNameKey) == Some(StringValue(hostName))
    ensures Lookup(r, OtaNs, PasswordKey) == Some(StringValue(password))
    ensures forall n, k :: n != OtaNs ==> Lookup(r, n, k) == Lookup(store, n, k)
  {
    PutPair(store, OtaNs, HostNameKey, hostName, PasswordKey, password)
  }

  /** Station credentials are configured only when both halves are non-empty. */
  predicate HasWiFiCredentials(c: (string, string))
  {
    c.0 != "" && c.1 != ""
  }

  /** The gate of `startAccessPoint` and `setupOTA`: a non-empty name and a
      password of at least eight characters. */
  predicate Usable(c: (string, string))
    // the gate is stricter than the station's "both halves set" test
    ensures Usable(c) ==> HasWiFiCredentials(c)
  {
    c.0 != "" && |c.1| >= MinPasswordLength
  }

  /** Writing the station credentials and reading them back gives the values
      written; the access point and OTA pairs read as before. */
  lemma WiFiCredentialsRoundTrip(store: Store, ssid: string, password: string)
    ensures WiFiCredentials(PutWiFiCredentials(store, ssid, password)) == (ssid, password)
    ensures ApCredentials(PutWiFiCredentials(store, ssid, password)) == ApCredentials(store)
    ensures OtaCredentials(PutWiFiCredentials(store, ssid, password)) == OtaCredentials(store)
  {
  }

  /** The same for the access point and the OTA pairs: each setter reaches
      its own namespace only. */
  lemma ApCredentialsRoundTrip(store: Store, ssid: string, password: string)
    ensures ApCredentials(PutApCredentials(store, ssid, password)) == (ssid, password)
    ensures WiFiCredentials(PutApCredentials(store, ssid, password)) == WiFiCredentials(store)
    ensures OtaCredentials(PutApCredentials(store, ssid, password)) == OtaCredentials(store)
  {
  }

  lemma OtaCredentialsRoundTrip(store: Store, hostName: string, password: string)
    ensures OtaCredentials(PutOtaCredentials(store, hostName, password)) == (hostName, password)
    ensures WiFiCredentials(PutOtaCredentials(store, hostName, password)) == WiFiCredentials(store)
    ensures ApCredentials(PutOtaCredentials(store, hostName, password)) == ApCredentials(store)
  {
  }
}
