/** The data plane's configuration, as the control plane writes it and the server reads it. */
module ServerConfig {

  datatype Proxy = Proxy(
    listen: string, listenTls: string, listenHttp: string,
    motd: string, accessLog: string, errorLog: string, tlsCert: string, tlsKey: string,
    idleSecs: int, maxDurationSecs: int, keepAliveSecs: int, dialSecs: int, perIp: int,
    minBytes: int, windowSecs: int, graceSecs: int)

  const NO_SETTINGS := Proxy("", "", "", "", "", "", "", "", 0, 0, 0, 0, 0, 0, 0, 0)

  datatype Upstream = Upstream(
    address: string, modules: seq<string>, discover: bool, useProxyProtocol: bool,
    maxActive: int, maxQueued: int, perIp: int)

  datatype Config = Config(proxy: Proxy, upstreams: map<string, Upstream>)

  const SECOND: int := 1_000_000_000
  const TWO_63: int := 0x8000_0000_0000_0000

  /** Two's-complement wrap-around of a 64-bit signed product. */
  function Wrap64(x: int): int {
    (x + TWO_63) % (2 * TWO_63) - TWO_63
  }

  /** It is the one 64-bit signed number that differs by a multiple of two to the 64th. */
  lemma Wrap64Is(x: int)
    ensures -0x8000_0000_0000_0000 <= Wrap64(x) < 0x8000_0000_0000_0000
    ensures (x - Wrap64(x)) % 0x1_0000_0000_0000_0000 == 0
  {
    var m := 2 * TWO_63;
    assert x + TWO_63 == m * ((x + TWO_63) / m) + (x + TWO_63) % m;
  }

  /** `time.Duration(secs) * time.Second`. */
  function Seconds(secs: int): int {
    Wrap64(secs * SECOND)
  }

  /** The conversion is exact when the true product fits. */
  lemma SecondsExact(secs: int)
    requires 0 <= secs * SECOND < TWO_63
    ensures Seconds(secs) == secs * SECOND
  {
  }

  /** The integer fields `loadConfig` refuses when negative. */
  predicate LimitsOk(p: Proxy) {
    && p.maxDurationSecs >= 0 && p.keepAliveSecs >= 0 && p.perIp >= 0 && p.dialSecs >= 0
    && p.minBytes >= 0 && p.windowSecs >= 0 && p.graceSecs >= 0
  }
}
