/** The dialling decision: dialTCP of internal/protocol/transport.go and the rule of sendEnvelope in
    internal/protocol/pool.go. */
module Transport {

  datatype Attempt = Direct | Through(proxy: string)

  /** The connections dialTCP tries, in order. parses and throughOk are the outcomes of parseTCPProxy,
      for a proxy that is set, and of dialViaProxy. */
  function Dial(proxy: string, parses: bool, throughOk: bool, fallback: bool): seq<Attempt> {
    if proxy == "" then [Direct]
    else if !parses then []
    else if throughOk || !fallback then [Through(proxy)]
    else [Through(proxy), Direct]
  }

  /** sendEnvelope: a session made for a proxy never falls back. */
  function SendFallback(sessionProxy: string, fallback: bool): bool {
    if sessionProxy != "" then false else fallback
  }

  /** A connection made: whether the dial through the proxy worked, and which attempt it came from. */
  datatype Dialled = Dialled(throughOk: bool, via: Attempt)

  /** d is what dialTCP can return: the last attempt it makes, and one through the proxy only if that
      dial worked. */
  predicate Connects(proxy: string, parses: bool, fallback: bool, d: Dialled) {
    var tried := Dial(proxy, parses, d.throughOk, fallback);
    |tried| > 0 && d.via == tried[|tried| - 1] && (d.via.Through? ==> d.throughOk)
  }
}
