/** The message handler registered with the provisioning beacon while the
    device is in access point mode: a property bag in, a reply string out,
    and possibly a write of new station credentials. */
module Provisioning {
  import opened Storage
  import opened Credentials

  /** An incoming request: a flat property bag. */
  type Message = map<string, string>

  const RestartProperty := "restart"
  const SsidProperty := "ssid"
  const PasswordProperty := "password"

  const RestartReply := "restarting in 5 seconds"
  const MissingReply := "Missing SSID or password"
  const SavedReply := "Credentials saved."

  /** Delay of the restart task the handler schedules. */
  const RestartDelayMs := 5000

  /** `getProperty`: the value of a property, empty when it is absent. */
  function Property(msg: Message, name: string): (r: string)
    ensures name !in msg ==> r == ""
    ensures name in msg ==> r == msg[name]
  {
    if name in msg then msg[name] else ""
  }

  /** The handler's reply, the store it leaves, and whether it scheduled
      a deferred restart. */
  datatype HandlerResult = HandlerResult(reply: string, store: Store, restartScheduled: bool)

  function HandleMessage(msg: Message, store: Store): (r: HandlerResult)
    // a restart request wins over everything else and never touches the store
    ensures r.restartScheduled <==> Property(msg, RestartProperty) == "true"
    ensures r.restartScheduled ==> r.reply == RestartReply && r.store == store
    // otherwise both credentials must be present and non-empty
    ensures !r.restartScheduled &&
            (Property(msg, SsidProperty) == "" || Property(msg, PasswordProperty) == "") ==>
              r.reply == MissingReply && r.store == store
    ensures r.reply == SavedReply <==>
              !r.restartScheduled && Property(msg, SsidProperty) != "" && Property(msg, PasswordProperty) != ""
    // a save writes the pair that is then read back, and nothing else
    ensures r.reply == SavedReply ==>
              WiFiCredentials(r.store) == (Property(msg, SsidProperty), Property(msg, PasswordProperty)) &&
              HasWiFiCredentials(WiFiCredentials(r.store)) &&
              forall n, k :: n != WifiNs ==> Lookup(r.store, n, k) == Lookup(store, n, k)
    ensures r.reply in {RestartReply, MissingReply, SavedReply}
  {
    if Property(msg, RestartProperty) == "true" then
      HandlerResult(RestartReply, store, true)
    else
      var ssid := Property(msg, SsidProperty);
      var password := Property(msg, PasswordProperty);
      if ssid == "" || password == "" then
        HandlerResult(MissingReply, store, false)
      else
        WiFiCredentialsRoundTrip(store, ssid, password);
        HandlerResult(SavedReply, PutWiFiCredentials(store, ssid, password), false)
  }
}
