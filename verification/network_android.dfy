/**
 * `AndroidNetworkManager`: classification of the active network by its
 * transports, the INTERNET-capability availability test, and the values the
 * change subscription emits (NetworkManager.android.kt).
 *
 * The ConnectivityManager is reduced to a snapshot of what it reports at the
 * moment of a query.
 */
module NetworkAndroid {
  import opened Wrappers
  import opened ModelTypes

  /** The transports and the INTERNET capability of the active network. */
  datatype Capabilities = Capabilities(wifi: bool, cellular: bool, ethernet: bool, internet: bool)

  /** What `activeNetwork` and `getNetworkCapabilities` report. */
  datatype Connectivity = NoActiveNetwork | Active(capabilities: Option<Capabilities>)

  function CurrentNetworkType(c: Connectivity): (t: NetworkType)
    // no network, or no capabilities for it, is NONE
    ensures c.NoActiveNetwork? || c.capabilities.None? ==> t == NONE
    // precedence WIFI > CELLULAR > ETHERNET
    ensures t == WIFI <==> c.Active? && c.capabilities.Some? && c.capabilities.value.wifi
    ensures t == CELLULAR <==>
              c.Active? && c.capabilities.Some? && !c.capabilities.value.wifi && c.capabilities.value.cellular
    ensures t == ETHERNET <==>
              c.Active? && c.capabilities.Some? && !c.capabilities.value.wifi && !c.capabilities.value.cellular
              && c.capabilities.value.ethernet
  {
    match c
    case NoActiveNetwork => NONE
    case Active(None) => NONE
    case Active(Some(caps)) =>
      if caps.wifi then WIFI
      else if caps.cellular then CELLULAR
      else if caps.ethernet then ETHERNET
      else NONE
  }

  function IsWiFiConnected(c: Connectivity): (b: bool)
    ensures b <==> CurrentNetworkType(c) == WIFI
  {
    CurrentNetworkType(c) == WIFI
  }

  function IsNetworkAvailable(c: Connectivity): (b: bool)
    ensures b <==> c.Active? && c.capabilities.Some? && c.capabilities.value.internet
  {
    match c
    case NoActiveNetwork => false
    case Active(None) => false
    case Active(Some(caps)) => caps.internet
  }

  /** Availability and transport classification are independent: a network may
      have INTERNET with no recognised transport, or WIFI without INTERNET. */
  lemma AvailabilityIndependentOfType()
    ensures exists c :: IsNetworkAvailable(c) && CurrentNetworkType(c) == NONE
    ensures exists c :: !IsNetworkAvailable(c) && CurrentNetworkType(c) == WIFI
  {
    var internetOnly := Active(Some(Capabilities(false, false, false, true)));
    assert IsNetworkAvailable(internetOnly) && CurrentNetworkType(internetOnly) == NONE;
    var wifiOffline := Active(Some(Capabilities(true, false, false, false)));
    assert !IsNetworkAvailable(wifiOffline) && CurrentNetworkType(wifiOffline) == WIFI;
  }

  /** A platform callback delivered to a subscription, with the connectivity
      reported at that moment; `Close` is the collector going away. */
  datatype Event = OnAvailable(now: Connectivity) | OnLost | OnCapabilitiesChanged(now: Connectivity) | Close

  /** The value a callback sends; `Close` sends nothing. */
  function EmissionOf(e: Event): NetworkType
    requires !e.Close?
  {
    match e
    case OnAvailable(now) => CurrentNetworkType(now)
    case OnLost => NONE
    case OnCapabilitiesChanged(now) => CurrentNetworkType(now)
  }

  /** Number of events delivered before the first `Close`. */
  function OpenPrefix(events: seq<Event>): (n: nat)
    ensures n <= |events|
    ensures forall i :: 0 <= i < n ==> !events[i].Close?
    ensures n < |events| ==> events[n].Close?
  {
    if |events| == 0 || events[0].Close? then 0 else 1 + OpenPrefix(events[1..])
  }

  /** The values sent by the registered callback for `events`. */
  function CallbackEmissions(events: seq<Event>): (r: seq<NetworkType>)
    ensures |r| == OpenPrefix(events)
    ensures forall i :: 0 <= i < |r| ==> !events[i].Close? && r[i] == EmissionOf(events[i])
  {
    if |events| == 0 || events[0].Close? then []
    else [EmissionOf(events[0])] + CallbackEmissions(events[1..])
  }

  datatype Subscription = Subscription(emitted: seq<NetworkType>, registered: bool)

  /** `observeNetworkChanges`: the callback is registered, the current type is
      sent, then every callback sends until the collector closes, which
      unregisters the callback. */
  function Observe(initial: Connectivity, events: seq<Event>): (s: Subscription)
    ensures |s.emitted| >= 1 && s.emitted[0] == CurrentNetworkType(initial)
    ensures |s.emitted| == 1 + OpenPrefix(events)
    ensures forall i :: 0 <= i < OpenPrefix(events) && events[i].OnLost? ==> s.emitted[i + 1] == NONE
    ensures s.registered <==> forall i :: 0 <= i < |events| ==> !events[i].Close?
  {
    Subscription([CurrentNetworkType(initial)] + CallbackEmissions(events), OpenPrefix(events) == |events|)
  }
}
