/**
 * `IOSNetworkManager`: classification from SystemConfiguration reachability
 * flags and the single value its change subscription emits
 * (NetworkManager.ios.kt).
 */
module NetworkIos {
  import opened ModelTypes

  /** The outcome of creating a reachability handle for the zero address and
      reading its flags. */
  datatype Reachability =
    | NoHandle
    | FlagsUnavailable
    | Flags(reachable: bool, connectionRequired: bool, isWWAN: bool)

  /** The reachable, connection-free case: something is usable. */
  predicate Usable(r: Reachability) { r.Flags? && r.reachable && !r.connectionRequired }

  function CurrentNetworkType(r: Reachability): (t: NetworkType)
    ensures t != ETHERNET
    ensures t == NONE <==> !Usable(r)
    ensures t == CELLULAR <==> Usable(r) && r.isWWAN
    ensures t == WIFI <==> Usable(r) && !r.isWWAN
  {
    match r
    case NoHandle => NONE
    case FlagsUnavailable => NONE
    case Flags(reachable, needsConnection, isWWAN) =>
      if !reachable || needsConnection then NONE
      else if isWWAN then CELLULAR
      else WIFI
  }

  function IsWiFiConnected(r: Reachability): (b: bool)
    ensures b <==> Usable(r) && !r.isWWAN
  {
    CurrentNetworkType(r) == WIFI
  }

  function IsNetworkAvailable(r: Reachability): (b: bool)
    ensures b <==> Usable(r)
  {
    CurrentNetworkType(r) != NONE
  }

  datatype Subscription = Subscription(emitted: seq<NetworkType>, closed: bool)

  /** `observeNetworkChanges`. Without a handle it sends NONE and closes.
      Otherwise it sends the current type once; the reachability callback
      computes a type on every change but forwards nothing. */
  function Observe(handle: bool, initial: Reachability, changes: seq<Reachability>): (s: Subscription)
    ensures !handle ==> s == Subscription([NONE], true)
    ensures handle ==> s.emitted == [CurrentNetworkType(initial)] && !s.closed
  {
    if !handle then Subscription([NONE], true)
    else Subscription([CurrentNetworkType(initial)], false)
  }

  /** Reachability changes after subscription never reach the collector. */
  lemma ChangesAreNotForwarded(handle: bool, initial: Reachability, a: seq<Reachability>, b: seq<Reachability>)
    ensures Observe(handle, initial, a) == Observe(handle, initial, b)
    ensures |Observe(handle, initial, a).emitted| == 1
  {
  }
}
