/** The connection states, the decisions `connect`, `startAccessPoint`,
    `setupOTA` and `loop` take from them, and the bounded wait for the
    station link. */
module Connection {
  import opened Credentials

  /** `AutoWiFi::State`. */
  datatype State = NotConnected | WifiConnected | ApMode

  /** `AutoWiFi::OTAState`. */
  datatype OtaState = OtaNotConnected | OtaInitialized

  const PollIntervalMs := 500
  const ConnectTimeoutMs := 10000

  /** Number of polls after the first one before the wait gives up. */
  const MaxPolls := ConnectTimeoutMs / PollIntervalMs

  /** The link comes up at one of the polls of the bounded wait. `link(k)`
      is the link status the radio reports at poll k, k * 500 ms after the
      join request. */
  ghost predicate LinkUpWithin(link: nat -> bool)
  {
    exists k :: 0 <= k <= MaxPolls && link(k)
  }

  /** The poll at which the bounded wait stops, scanning from poll k: the
      first one that sees the link up, or the last one. */
  function StopPoll(link: nat -> bool, k: nat): (p: nat)
    requires k <= MaxPolls
    ensures k <= p <= MaxPolls
    ensures forall j :: k <= j < p ==> !link(j)
    ensures link(p) || p == MaxPolls
    decreases MaxPolls - k
  {
    if link(k) || k == MaxPolls then k else StopPoll(link, k + 1)
  }

  /** A poll that sees the link down, before the last, passes the wait on. */
  lemma StopPollSkips(link: nat -> bool, k: nat)
    requires k < MaxPolls && !link(k)
    ensures StopPoll(link, k) == StopPoll(link, k + 1)
  {
  }

  /** A poll that sees the link up, or the last poll, ends the wait. */
  lemma StopPollStops(link: nat -> bool, k: nat)
    requires k <= MaxPolls && (link(k) || k == MaxPolls)
    ensures StopPoll(link, k) == k
  {
  }

  /** Whether the join wait ends with the link up. */
  function Joined(link: nat -> bool): (r: bool)
    ensures r <==> LinkUpWithin(link)
  {
    var p := StopPoll(link, 0);
    assert link(p) ==> LinkUpWithin(link);
    link(p)
  }

  /** How long the join wait blocks: up to the first poll that sees the
      link, and the full 10 s when none does. */
  function JoinWaitMs(link: nat -> bool): (ms: nat)
    ensures ms <= ConnectTimeoutMs && ms % PollIntervalMs == 0
    ensures !Joined(link) ==> ms == ConnectTimeoutMs
    ensures Joined(link) ==>
              link(ms / PollIntervalMs) && forall k :: 0 <= k < ms / PollIntervalMs ==> !link(k)
  {
    StopPoll(link, 0) * PollIntervalMs
  }

  /** `waitForWiFiConnection`: poll the link every 500 ms until it is up or
      10 s have passed, then report the link status. */
  method WaitForWiFiConnection(link: nat -> bool) returns (connected: bool, elapsedMs: nat)
    ensures connected == Joined(link) && elapsedMs == JoinWaitMs(link)
  {
    ghost var stop := StopPoll(link, 0);
    var polls: nat := 0;
    elapsedMs := 0;
    while !link(polls) && elapsedMs < ConnectTimeoutMs
      invariant polls <= MaxPolls && elapsedMs == polls * PollIntervalMs
      invariant StopPoll(link, polls) == stop
      decreases ConnectTimeoutMs - elapsedMs
    {
      StopPollSkips(link, polls);
      polls := polls + 1;
      elapsedMs := elapsedMs + PollIntervalMs;
    }
    StopPollStops(link, polls);
    connected := link(polls);
  }

  /** The state `startAccessPoint` returns: access point mode exactly when
      the stored access point credentials pass the gate and the radio
      starts the soft AP. */
  function AccessPointState(ap: (string, string), softApOk: bool): (r: State)
    ensures r == ApMode <==> Usable(ap) && softApOk
    ensures r != WifiConnected
  {
    if ap.0 == "" || |ap.1| < MinPasswordLength then NotConnected
    else if !softApOk then NotConnected
    else ApMode
  }

  /** The state `setupOTA` returns. */
  function OtaSetupState(ota: (string, string)): (r: OtaState)
    ensures r == OtaInitialized <==> Usable(ota)
  {
    if ota.0 == "" || |ota.1| < MinPasswordLength then OtaNotConnected else OtaInitialized
  }

  /** The state `connect` settles in once the boot check has let it go on:
      station mode when credentials are stored and the link came up, the
      access point when no complete station credentials are stored. */
  function ConnectState(wifi: (string, string), ap: (string, string), softApOk: bool, joined: bool): (r: State)
    ensures r == WifiConnected <==> HasWiFiCredentials(wifi) && joined
    ensures r == ApMode <==> !HasWiFiCredentials(wifi) && Usable(ap) && softApOk
  {
    if wifi.0 == "" || wifi.1 == "" then AccessPointState(ap, softApOk)
    else if joined then WifiConnected
    else NotConnected
  }

  /** The one thing a call of `loop` does. */
  datatype Branch = ServiceBeacon | Reconnect | ServiceOta | Idle

  /** `loop`'s choice, in priority order: the beacon in access point mode;
      otherwise a reconnect when not connected or the link is down;
      otherwise the OTA listener when it was initialised. */
  function TickBranch(state: State, otaState: OtaState, linkUp: bool): (b: Branch)
    ensures b == ServiceBeacon <==> state.ApMode?
    ensures b == Reconnect <==> state.NotConnected? || (state.WifiConnected? && !linkUp)
    ensures b == ServiceOta <==> state.WifiConnected? && linkUp && otaState.OtaInitialized?
  {
    if state == ApMode then ServiceBeacon
    else if state == NotConnected || !linkUp then Reconnect
    else if otaState == OtaInitialized then ServiceOta
    else Idle
  }

  /** An IPv4 address. */
  type Octet = x: int | 0 <= x < 256
  datatype IPAddress = IPAddress(a: Octet, b: Octet, c: Octet, d: Octet)

  const Unspecified := IPAddress(0, 0, 0, 0)
}
