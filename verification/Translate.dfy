/** From a validated GatewayConfig and bound routes to the data plane's configuration. */
module Translate {
  import opened Ordering
  import opened GatewayApi
  import opened Claims
  import opened Backends
  import opened ServerConfig

  // ---------------------------------------------------------------- upstream names

  function Lower(c: char): char {
    if 'A' <= c <= 'Z' then (c as int + 32) as char else c
  }

  predicate NameChar(c: char) {
    'a' <= c <= 'z' || '0' <= c <= '9' || c == '-'
  }

  function NameCharOr(c: char): char {
    if NameChar(Lower(c)) then Lower(c) else '-'
  }

  function RawName(route: Key, index: nat): string {
    route.ns + "-" + route.name + "-" + Digits(index)
  }

  function Sanitized(raw: string): string {
    seq(|raw|, i requires 0 <= i < |raw| => NameCharOr(raw[i]))
  }

  function UpstreamName(route: Key, index: nat): string {
    var name := Sanitized(RawName(route, index));
    if |name| > 63 then name[..63] else name
  }

  /** The generated name is a DNS label: 1 to 63 letters, digits and hyphens. */
  method BuildUpstreamName(route: Key, index: nat) returns (name: string)
    ensures name == UpstreamName(route, index)
    ensures 0 < |name| <= 63 && forall i :: 0 <= i < |name| ==> NameChar(name[i])
  {
    var raw := RawName(route, index);
    name := "";
    for i := 0 to |raw|
      invariant |name| == i && forall j :: 0 <= j < i ==> name[j] == NameCharOr(raw[j])
    {
      var r := Lower(raw[i]);
      name := name + [if NameChar(r) then r else '-'];
    }
    assert name == Sanitized(raw);
    if |name| > 63 { name := name[..63]; }
  }

  /** What becomes of a character: capitals are made small, small letters, digits and hyphens
      stay, everything else turns into a hyphen. */
  lemma FoldIs(c: char)
    ensures 'A' <= c <= 'Z' ==> 'a' <= NameCharOr(c) <= 'z' && NameCharOr(c) as int - 'a' as int == c as int - 'A' as int
    ensures 'a' <= c <= 'z' || '0' <= c <= '9' || c == '-' ==> NameCharOr(c) == c
    ensures !('A' <= c <= 'Z' || 'a' <= c <= 'z' || '0' <= c <= '9') ==> NameCharOr(c) == '-'
  {
  }

  // ---------------------------------------------------------------- which backends share a name

  /** The part of the name before the index. */
  function RouteText(route: Key): string {
    route.ns + "-" + route.name
  }

  predicate IsDigit(c: char) { '0' <= c <= '9' }

  lemma {:induction false} DigitsAreDigits(n: nat)
    ensures |Digits(n)| > 0 && forall i :: 0 <= i < |Digits(n)| ==> IsDigit(Digits(n)[i])
  {
    if n < 10 {
    } else {
      DigitsAreDigits(n / 10);
      DigitsAreDigits(n % 10);
    }
  }

  lemma LastDigit(n: nat)
    requires n >= 10
    ensures var s := Digits(n); |s| > 0 && s[..|s| - 1] == Digits(n / 10) && s[|s| - 1] as int == '0' as int + n % 10
  {
    assert Digits(n % 10) == [('0' as int + n % 10) as char];
    assert Digits(n) == Digits(n / 10) + Digits(n % 10);
  }

  lemma {:induction false} DigitsInjective(m: nat, n: nat)
    requires Digits(m) == Digits(n)
    ensures m == n
  {
    DigitsAreDigits(m / 10);
    DigitsAreDigits(n / 10);
    if m < 10 || n < 10 {
      assert |Digits(m)| == 1 <==> m < 10;
      assert |Digits(n)| == 1 <==> n < 10;
    } else {
      LastDigit(m);
      LastDigit(n);
      DigitsInjective(m / 10, n / 10);
    }
  }

  /** The number a text of digits stands for. */
  function NumberOf(s: string): int {
    if s == "" then 0 else 10 * NumberOf(s[..|s| - 1]) + (s[|s| - 1] as int - '0' as int)
  }

  /** The digits of a number stand for it. */
  lemma {:induction false} DigitsStandFor(n: nat)
    ensures NumberOf(Digits(n)) == n
  {
    if n < 10 {
      assert Digits(n)[..0] == "";
    } else {
      LastDigit(n);
      DigitsStandFor(n / 10);
    }
  }

  lemma {:induction false} DigitsGrow(m: nat, n: nat)
    requires m <= n
    ensures |Digits(m)| <= |Digits(n)|
  {
    DigitsAreDigits(n);
    if m < 10 {
    } else {
      DigitsGrow(m / 10, n / 10);
      LastDigit(m);
      LastDigit(n);
    }
  }

  /** A proper prefix of a number's digits is a smaller number's digits. */
  lemma {:induction false} DigitsPrefix(n: nat, q: nat) returns (m: nat)
    requires 0 < q < |Digits(n)|
    ensures m < n && Digits(m) == Digits(n)[..q]
  {
    DigitsAreDigits(n / 10);
    LastDigit(n);
    if q == |Digits(n)| - 1 {
      m := n / 10;
    } else {
      m := DigitsPrefix(n / 10, q);
      assert Digits(n / 10)[..q] == Digits(n)[..q];
    }
  }

  /** The whole name before it is cut: the folded route text, a hyphen and the index. */
  lemma SanitizedRaw(route: Key, index: nat)
    ensures Sanitized(RawName(route, index)) == Sanitized(RouteText(route)) + "-" + Digits(index)
  {
    var text, digits := RouteText(route), Digits(index);
    DigitsAreDigits(index);
    assert RawName(route, index) == text + "-" + digits;
    assert forall i :: 0 <= i < |digits| ==> NameCharOr(digits[i]) == digits[i];
  }

  lemma LastHyphen(a: string, d: string, b: string, e: string)
    requires a + "-" + d == b + "-" + e && '-' !in d && '-' !in e
    ensures |a| == |b|
  {
    var s, t := a + "-" + d, b + "-" + e;
    assert s[|a|] == '-' && t[|b|] == '-';
    assert forall k :: |a| < k < |s| ==> s[k] == d[k - |a| - 1];
    assert forall k :: |b| < k < |t| ==> t[k] == e[k - |b| - 1];
  }

  lemma SameParts(a: string, d: string, b: string, e: string)
    requires a + "-" + d == b + "-" + e && |a| == |b|
    ensures a == b && d == e
  {
    var s, t := a + "-" + d, b + "-" + e;
    assert a == s[..|a|] && b == t[..|b|];
    assert d == s[|a| + 1..] && e == t[|b| + 1..];
  }

  /** Text, a hyphen and digits: the digits say where the text ends. */
  lemma SplitsAtHyphen(a: string, i: nat, b: string, j: nat)
    requires a + "-" + Digits(i) == b + "-" + Digits(j)
    ensures a == b && i == j
  {
    DigitsAreDigits(i);
    DigitsAreDigits(j);
    LastHyphen(a, Digits(i), b, Digits(j));
    SameParts(a, Digits(i), b, Digits(j));
    DigitsInjective(i, j);
  }

  /** Two backends share an upstream name exactly when, uncut, they have the same index and the
      same folded route text, or when both are long enough to be cut and agree up to the cut. */
  lemma SharedNameIff(r: Key, i: nat, r': Key, i': nat)
    ensures UpstreamName(r, i) == UpstreamName(r', i') <==>
      var a, b := RawName(r, i), RawName(r', i');
      if |a| <= 63 && |b| <= 63 then i == i' && Sanitized(RouteText(r)) == Sanitized(RouteText(r'))
      else |a| >= 63 && |b| >= 63 && Sanitized(a)[..63] == Sanitized(b)[..63]
  {
    SanitizedRaw(r, i);
    SanitizedRaw(r', i');
    var a, b := RawName(r, i), RawName(r', i');
    if |a| <= 63 && |b| <= 63 && UpstreamName(r, i) == UpstreamName(r', i') {
      SplitsAtHyphen(Sanitized(RouteText(r)), i, Sanitized(RouteText(r')), i');
    }
    if |a| == 63 { assert Sanitized(a)[..63] == Sanitized(a); }
    if |b| == 63 { assert Sanitized(b)[..63] == Sanitized(b); }
  }

  /** Two routes can share a name uncut. */
  lemma NamesCollide()
    ensures UpstreamName(Key("a", "b-c"), 0) == UpstreamName(Key("a-b", "c"), 0)
  {
    assert RawName(Key("a", "b-c"), 0) == RawName(Key("a-b", "c"), 0);
  }

  /** Where the cut leaves no room for the index, all backends of a route share one name. */
  lemma LongRouteShares(r: Key, i: nat, j: nat)
    requires |r.ns| + |r.name| + 2 >= 63
    ensures UpstreamName(r, i) == UpstreamName(r, j)
  {
    SanitizedRaw(r, i);
    SanitizedRaw(r, j);
    DigitsAreDigits(i);
    DigitsAreDigits(j);
    var text := Sanitized(RouteText(r)) + "-";
    assert UpstreamName(r, i) == text[..63] && UpstreamName(r, j) == text[..63];
  }

  /** A number whose digits are cut off shares its name with a smaller one. */
  lemma CutIndexShares(r: Key, n: nat) returns (m: nat)
    requires |r.ns| + |r.name| + 2 < 63 && |r.ns| + |r.name| + 2 + |Digits(n)| > 63
    ensures m < n && UpstreamName(r, m) == UpstreamName(r, n)
  {
    var text, q := Sanitized(RouteText(r)) + "-", 63 - (|r.ns| + |r.name| + 2);
    m := DigitsPrefix(n, q);
    SanitizedRaw(r, m);
    SanitizedRaw(r, n);
    assert (text + Digits(n))[..63] == text + Digits(n)[..q];
  }

  /** The first `n` backends of a route have different names exactly when the last index still
      fits uncut; otherwise some are lost. */
  lemma OneRouteIff(r: Key, n: nat)
    ensures (forall i, j :: 0 <= i < j < n ==> UpstreamName(r, i) != UpstreamName(r, j)) <==>
      n <= 1 || |r.ns| + |r.name| + 2 + |Digits(n - 1)| <= 63
  {
    if n > 1 {
      if |r.ns| + |r.name| + 2 >= 63 {
        LongRouteShares(r, 0, 1);
        DigitsAreDigits(n - 1);
      } else if |r.ns| + |r.name| + 2 + |Digits(n - 1)| > 63 {
        var m := CutIndexShares(r, n - 1);
      } else {
        forall i, j | 0 <= i < j < n ensures UpstreamName(r, i) != UpstreamName(r, j) {
          DigitsGrow(i, n - 1);
          DigitsGrow(j, n - 1);
          SharedNameIff(r, i, r, j);
        }
      }
    }
  }

  // ---------------------------------------------------------------- settings

  datatype Outcome<T> = Ok(value: T) | Err(message: string) | Panic

  function DurationSecs(env: Env, d: Option<string>): Outcome<int> {
    if d.None? then Ok(0)
    else
      var dur := env.parseDuration(d.value);
      if dur.None? then Err("invalid duration " + Quote(d.value))
      else if dur.value < 0 then Err("duration must be non-negative, got " + d.value)
      else Ok(dur.value / SECOND)
  }

  function Deref(p: Option<Int32>): int {
    if p.None? then 0 else p.value
  }

  function WindowOf(c: ConfigSpec): Option<string> {
    if c.floor.None? then None else c.floor.value.window
  }

  function GraceOf(c: ConfigSpec): Option<string> {
    if c.floor.None? then None else c.floor.value.grace
  }

  function ProxySettings(env: Env, cfg: Option<ConfigSpec>): Outcome<Proxy> {
    if cfg.None? then Ok(NO_SETTINGS)
    else
      var c := cfg.value;
      var err := Validate(env, c);
      if err.Some? then Err(err.value)
      else
        var idle := DurationSecs(env, c.relayIdleTimeout);
        if !idle.Ok? then Err("relayIdleTimeout") else
        var maxDuration := DurationSecs(env, c.relayMaxDuration);
        if !maxDuration.Ok? then Err("relayMaxDuration") else
        var keepAlive := DurationSecs(env, c.tcpKeepAlive);
        if !keepAlive.Ok? then Err("tcpKeepAlive") else
        var dial := DurationSecs(env, c.dialTimeout);
        if !dial.Ok? then Err("dialTimeout") else
        var window := DurationSecs(env, WindowOf(c));
        if !window.Ok? then Err("throughputFloor.window") else
        var grace := DurationSecs(env, GraceOf(c));
        if !grace.Ok? then Err("throughputFloor.grace") else
        var minBytes: int := if c.floor.Some? && c.floor.value.minBytes.Some? then c.floor.value.minBytes.value else 0;
        var w := if minBytes > 0 && window.value == 0 then 60 else window.value;
        var g := if minBytes > 0 && grace.value == 0 then w else grace.value;
        Ok(NO_SETTINGS.(
          motd := if c.motd.Some? then c.motd.value else "",
          idleSecs := idle.value, maxDurationSecs := maxDuration.value,
          keepAliveSecs := keepAlive.value, dialSecs := dial.value,
          perIp := Deref(c.perIp), minBytes := minBytes, windowSecs := w, graceSecs := g))
  }

  /** A configured duration never grows by the trip to whole seconds and back, and never
      overflows on the way. */
  ghost predicate Faithful(env: Env, d: Option<string>, secs: int) {
    && secs >= 0 && Seconds(secs) == secs * SECOND
    && (d.None? ==> secs == 0)
    && (d.Some? && env.parseDuration(d.value).Some? ==>
          Seconds(secs) <= env.parseDuration(d.value).value < Seconds(secs) + SECOND)
  }

  ghost predicate SubSecond(env: Env, d: Option<string>) {
    d.Some? && env.parseDuration(d.value).Some? ==> env.parseDuration(d.value).value < SECOND
  }

  lemma DurationFaithful(env: Env, d: Option<string>)
    requires GoodDuration(env, d)
    ensures DurationSecs(env, d).Ok? && Faithful(env, d, DurationSecs(env, d).value)
  {
    if d.Some? {
      var dur := env.parseDuration(d.value).value;
      assert dur == (dur / SECOND) * SECOND + dur % SECOND;
      SecondsExact(dur / SECOND);
    }
  }

  /** The configured floor, zero when there is none. */
  function FloorBytes(c: ConfigSpec): int {
    match c.floor
    case None => 0
    case Some(f) => (match f.minBytes case None => 0 case Some(n) => n)
  }

  /** For a sound spec translation succeeds and every limit passes the server's checks. No
      duration overflows or exceeds what was configured; only under a floor does a window or
      grace below one second, or unset, give way: to a minute and to the window. MOTD, floor
      and per-IP cap are as configured, and nothing is said of listeners, logs or TLS. */
  lemma SettingsAreSound(env: Env, c: ConfigSpec)
    requires Sound(env, c)
    ensures var r := ProxySettings(env, Some(c));
      && r.Ok? && LimitsOk(r.value) && r.value.idleSecs >= 0
      && r.value == NO_SETTINGS.(motd := r.value.motd, idleSecs := r.value.idleSecs, maxDurationSecs := r.value.maxDurationSecs,
           keepAliveSecs := r.value.keepAliveSecs, dialSecs := r.value.dialSecs, perIp := r.value.perIp,
           minBytes := r.value.minBytes, windowSecs := r.value.windowSecs, graceSecs := r.value.graceSecs)
      && Faithful(env, c.relayIdleTimeout, r.value.idleSecs)
      && Faithful(env, c.relayMaxDuration, r.value.maxDurationSecs)
      && Faithful(env, c.tcpKeepAlive, r.value.keepAliveSecs)
      && Faithful(env, c.dialTimeout, r.value.dialSecs)
      && Seconds(r.value.windowSecs) == r.value.windowSecs * SECOND
      && Seconds(r.value.graceSecs) == r.value.graceSecs * SECOND
      && (if FloorBytes(c) > 0 && SubSecond(env, WindowOf(c)) then r.value.windowSecs == 60
          else Faithful(env, WindowOf(c), r.value.windowSecs))
      && (if FloorBytes(c) > 0 && SubSecond(env, GraceOf(c)) then r.value.graceSecs == r.value.windowSecs
          else Faithful(env, GraceOf(c), r.value.graceSecs))
      && r.value.minBytes == FloorBytes(c)
      && (c.motd.None? ==> r.value.motd == "") && (c.motd.Some? ==> r.value.motd == c.motd.value)
      && (c.perIp.None? ==> r.value.perIp == 0) && (c.perIp.Some? ==> r.value.perIp == c.perIp.value)
  {
    ValidateIsExact(env, c);
    DurationFaithful(env, c.relayIdleTimeout);
    DurationFaithful(env, c.relayMaxDuration);
    DurationFaithful(env, c.tcpKeepAlive);
    DurationFaithful(env, c.dialTimeout);
    DurationFaithful(env, WindowOf(c));
    DurationFaithful(env, GraceOf(c));
  }

  // ---------------------------------------------------------------- the upstream table

  datatype RouteInput = RouteInput(route: Key, modules: seq<string>, backends: seq<Backend>, config: Option<ConfigSpec>)

  function Address(b: Backend): string {
    b.service.name + "." + b.service.ns + ".svc:" + Decimal(b.port)
  }

  function Entry(modules: seq<string>, b: Backend, spec: ConfigSpec): Upstream {
    Upstream(Address(b), modules, false, false, Deref(spec.maxActive), Deref(spec.maxQueued), Deref(spec.perIp))
  }

  function SpecOf(primary: Option<ConfigSpec>, input: RouteInput): Option<ConfigSpec> {
    if input.config.Some? then input.config else primary
  }

  /** The route's effective spec is sound; without one it has no backend. */
  predicate InputOk(env: Env, primary: Option<ConfigSpec>, input: RouteInput) {
    if SpecOf(primary, input).Some? then Sound(env, SpecOf(primary, input).value) else input.backends == []
  }

  ghost predicate AllOk(env: Env, primary: Option<ConfigSpec>, inputs: seq<RouteInput>) {
    forall input :: input in inputs ==> InputOk(env, primary, input)
  }

  /** The table after the first `n` backends of a route; a later entry of the same name wins. */
  function WithBackends(table: map<string, Upstream>, input: RouteInput, spec: ConfigSpec, n: nat): map<string, Upstream>
    requires n <= |input.backends|
  {
    if n == 0 then table
    else WithBackends(table, input, spec, n - 1)
           [UpstreamName(input.route, n - 1) := Entry(input.modules, input.backends[n - 1], spec)]
  }

  /** The table with one more route's backends. */
  function Extended(primary: Option<ConfigSpec>, table: map<string, Upstream>, input: RouteInput): map<string, Upstream> {
    if SpecOf(primary, input).None? then table
    else WithBackends(table, input, SpecOf(primary, input).value, |input.backends|)
  }

  function TableOf(primary: Option<ConfigSpec>, inputs: seq<RouteInput>): map<string, Upstream> {
    if inputs == [] then map[]
    else
      var input := inputs[|inputs| - 1];
      Extended(primary, TableOf(primary, inputs[..|inputs| - 1]), input)
  }

  method AddBackends(table: map<string, Upstream>, input: RouteInput, spec: ConfigSpec) returns (table': map<string, Upstream>)
    ensures table' == WithBackends(table, input, spec, |input.backends|)
  {
    table' := table;
    for k := 0 to |input.backends|
      invariant table' == WithBackends(table, input, spec, k)
    {
      var name := BuildUpstreamName(input.route, k);
      table' := table'[name := Entry(input.modules, input.backends[k], spec)];
    }
  }

  /** One route's turn in the translation loop. */
  method AddRoute(env: Env, primary: Option<ConfigSpec>, table: map<string, Upstream>, route: RouteInput)
    returns (out: Outcome<map<string, Upstream>>)
    ensures out.Ok? <==> InputOk(env, primary, route)
    ensures out.Ok? ==> out.value == Extended(primary, table, route)
    ensures out.Panic? <==> SpecOf(primary, route).None? && route.backends != []
  {
    var spec := SpecOf(primary, route);
    if spec.None? {
      // The first backend would dereference the missing spec.
      return if route.backends != [] then Panic else Ok(table);
    }
    ValidateIsExact(env, spec.value);
    if Validate(env, spec.value).Some? {
      return Err("route " + KeyString(route.route) + ": invalid GatewayConfig");
    }
    var table' := AddBackends(table, route, spec.value);
    return Ok(table');
  }

  lemma TableNext(primary: Option<ConfigSpec>, inputs: seq<RouteInput>, i: nat)
    requires i < |inputs|
    ensures TableOf(primary, inputs[..i + 1]) == Extended(primary, TableOf(primary, inputs[..i]), inputs[i])
  {
    assert inputs[..i + 1][..i] == inputs[..i];
  }

  method AddRoutes(env: Env, primary: Option<ConfigSpec>, inputs: seq<RouteInput>) returns (out: Outcome<map<string, Upstream>>)
    ensures out.Ok? <==> AllOk(env, primary, inputs)
    ensures out.Ok? ==> out.value == TableOf(primary, inputs)
    ensures out.Panic? ==> exists i :: 0 <= i < |inputs| && SpecOf(primary, inputs[i]).None? && inputs[i].backends != []
  {
    var table: map<string, Upstream> := map[];
    for i := 0 to |inputs|
      invariant AllOk(env, primary, inputs[..i])
      invariant table == TableOf(primary, inputs[..i])
    {
      TableNext(primary, inputs, i);
      var added := AddRoute(env, primary, table, inputs[i]);
      if !added.Ok? { return added; }
      table := added.value;
    }
    assert inputs[..|inputs|] == inputs;
    return Ok(table);
  }

  method BuildServerConfig(env: Env, primary: Option<ConfigSpec>, inputs: seq<RouteInput>) returns (out: Outcome<Config>)
    ensures out.Ok? <==> ProxySettings(env, primary).Ok? && AllOk(env, primary, inputs)
    ensures out.Ok? ==> out.value == Config(ProxySettings(env, primary).value, TableOf(primary, inputs))
    ensures out.Panic? ==> exists i :: 0 <= i < |inputs| && SpecOf(primary, inputs[i]).None? && inputs[i].backends != []
  {
    var proxy := ProxySettings(env, primary);
    if !proxy.Ok? { return Err("invalid GatewayConfig"); }
    var table := AddRoutes(env, primary, inputs);
    match table
    case Ok(t) => return Ok(Config(proxy.value, t));
    case Err(message) => return Err(message);
    case Panic => return Panic;
  }

  // ---------------------------------------------------------------- what the table holds

  /** The entry is the last of its name among the first `n` of the route. */
  ghost predicate LastNamed(route: Key, n: nat, i: nat, name: string) {
    i < n && name == UpstreamName(route, i) && forall j: nat :: i < j < n ==> UpstreamName(route, j) != name
  }

  lemma NewestIsLast(route: Key, n: nat)
    ensures LastNamed(route, n + 1, n, UpstreamName(route, n))
  {
  }

  lemma StillLast(route: Key, n: nat, i: nat, name: string)
    requires LastNamed(route, n, i, name) && UpstreamName(route, n) != name
    ensures LastNamed(route, n + 1, i, name)
  {
  }

  /** `u` is the entry of the route's last backend of that name among the first `n`. */
  ghost predicate FromRoute(input: RouteInput, spec: ConfigSpec, n: nat, name: string, u: Upstream)
    requires n <= |input.backends|
  {
    exists i: nat :: LastNamed(input.route, n, i, name) && u == Entry(input.modules, input.backends[i], spec)
  }

  /** Everything in the extended table was there before, or is the route's last entry of its
      name. */
  lemma {:induction false} WithBackendsOrigin(table: map<string, Upstream>, input: RouteInput, spec: ConfigSpec, n: nat, name: string)
    requires n <= |input.backends| && name in WithBackends(table, input, spec, n)
    ensures var u := WithBackends(table, input, spec, n)[name];
      (name in table && u == table[name]) || FromRoute(input, spec, n, name, u)
  {
    if n == 0 {
    } else if name == UpstreamName(input.route, n - 1) {
      NewestIsLast(input.route, n - 1);
    } else {
      WithBackendsOrigin(table, input, spec, n - 1, name);
      var u := WithBackends(table, input, spec, n - 1)[name];
      if FromRoute(input, spec, n - 1, name, u) {
        var i: nat :| LastNamed(input.route, n - 1, i, name) && u == Entry(input.modules, input.backends[i], spec);
        StillLast(input.route, n - 1, i, name);
      }
    }
  }

  /** The last entry of a name is the one that stays. */
  lemma {:induction false} LastNamedStays(table: map<string, Upstream>, input: RouteInput, spec: ConfigSpec, n: nat, i: nat, name: string)
    requires n <= |input.backends| && LastNamed(input.route, n, i, name)
    ensures name in WithBackends(table, input, spec, n)
    ensures WithBackends(table, input, spec, n)[name] == Entry(input.modules, input.backends[i], spec)
  {
    if i < n - 1 {
      assert UpstreamName(input.route, n - 1) != name;
      assert LastNamed(input.route, n - 1, i, name);
      LastNamedStays(table, input, spec, n - 1, i, name);
    }
  }

  lemma {:induction false} WithBackendsKeeps(table: map<string, Upstream>, input: RouteInput, spec: ConfigSpec, n: nat, name: string)
    requires n <= |input.backends|
    requires name in table || exists i: nat :: i < n && name == UpstreamName(input.route, i)
    ensures name in WithBackends(table, input, spec, n)
  {
    if n > 0 && name != UpstreamName(input.route, n - 1) {
      WithBackendsKeeps(table, input, spec, n - 1, name);
    }
  }

  /** Entry `i` of input `k` of the table, the last of its name there. */
  ghost predicate IsEntry(primary: Option<ConfigSpec>, inputs: seq<RouteInput>, k: nat, i: nat, name: string, u: Upstream) {
    && k < |inputs| && LastNamed(inputs[k].route, |inputs[k].backends|, i, name) && SpecOf(primary, inputs[k]).Some?
    && u == Entry(inputs[k].modules, inputs[k].backends[i], SpecOf(primary, inputs[k]).value)
  }

  /** Whatever names collide, the table holds only last entries of the inputs. */
  lemma {:induction false} TableOrigin(primary: Option<ConfigSpec>, inputs: seq<RouteInput>, name: string)
    requires name in TableOf(primary, inputs)
    ensures exists k: nat, i: nat :: IsEntry(primary, inputs, k, i, name, TableOf(primary, inputs)[name])
  {
    var n := |inputs| - 1;
    var front, input := inputs[..n], inputs[n];
    var rest, table := TableOf(primary, front), TableOf(primary, inputs);
    if SpecOf(primary, input).Some? {
      WithBackendsOrigin(rest, input, SpecOf(primary, input).value, |input.backends|, name);
    }
    if name in rest && table[name] == rest[name] {
      TableOrigin(primary, front, name);
      var k: nat, i: nat :| IsEntry(primary, front, k, i, name, rest[name]);
      assert IsEntry(primary, inputs, k, i, name, table[name]);
    } else {
      var i: nat :| LastNamed(input.route, |input.backends|, i, name)
        && table[name] == Entry(input.modules, input.backends[i], SpecOf(primary, input).value);
      assert IsEntry(primary, inputs, n, i, name, table[name]);
    }
  }

  lemma ExtendedKeeps(primary: Option<ConfigSpec>, table: map<string, Upstream>, input: RouteInput, name: string)
    requires name in table
    ensures name in Extended(primary, table, input)
  {
    if SpecOf(primary, input).Some? {
      WithBackendsKeeps(table, input, SpecOf(primary, input).value, |input.backends|, name);
    }
  }

  /** Every entry's name is in the table. */
  lemma {:induction false} TableHasNames(primary: Option<ConfigSpec>, inputs: seq<RouteInput>, k: nat, i: nat, name: string)
    requires k < |inputs| && i < |inputs[k].backends| && SpecOf(primary, inputs[k]).Some?
    requires name == UpstreamName(inputs[k].route, i)
    ensures name in TableOf(primary, inputs)
  {
    var n := |inputs| - 1;
    var front, input := inputs[..n], inputs[n];
    if k < n {
      assert front[k] == inputs[k];
      TableHasNames(primary, front, k, i, name);
      ExtendedKeeps(primary, TableOf(primary, front), input, name);
    } else {
      WithBackendsKeeps(TableOf(primary, front), input, SpecOf(primary, input).value, |input.backends|, name);
    }
  }
}
