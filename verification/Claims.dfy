/** Validating GatewayConfigs and claiming GatewayClasses. */
module Claims {
  import opened Ordering
  import opened GatewayApi

  function FirstNegative(fields: seq<(string, Option<Int32>)>): Option<string> {
    if fields == [] then None
    else
      var (name, val) := fields[0];
      if val.Some? && val.value < 0 then Some(name + " must be non-negative, got " + Decimal(val.value))
      else FirstNegative(fields[1..])
  }

  function FirstBadDuration(env: Env, fields: seq<(string, Option<string>)>): Option<string> {
    if fields == [] then None
    else
      var (name, val) := fields[0];
      if val.None? then FirstBadDuration(env, fields[1..])
      else
        var d := env.parseDuration(val.value);
        if d.None? then Some(name + ": invalid duration " + Quote(val.value))
        else if d.value < 0 then Some(name + " must be non-negative, got " + val.value)
        else FirstBadDuration(env, fields[1..])
  }

  function IntFields(s: ConfigSpec): seq<(string, Option<Int32>)> {
    [("perIPMaxActiveConnections", s.perIp),
     ("maxActiveConnections", s.maxActive),
     ("maxQueuedConnections", s.maxQueued)]
  }

  function DurationFields(s: ConfigSpec): seq<(string, Option<string>)> {
    [("relayIdleTimeout", s.relayIdleTimeout),
     ("relayMaxDuration", s.relayMaxDuration),
     ("tcpKeepAlive", s.tcpKeepAlive),
     ("dialTimeout", s.dialTimeout),
     ("throughputFloor.window", if s.floor.None? then None else s.floor.value.window),
     ("throughputFloor.grace", if s.floor.None? then None else s.floor.value.grace)]
  }

  /** The first thing wrong with a spec, if any. */
  function Validate(env: Env, s: ConfigSpec): Option<string> {
    var negative := FirstNegative(IntFields(s));
    if negative.Some? then negative
    else
      var bad := FirstBadDuration(env, DurationFields(s));
      if bad.Some? then bad
      else if s.floor.Some? && s.floor.value.minBytes.Some? && s.floor.value.minBytes.value < 0 then
        Some("throughputFloor.minBytes must be non-negative, got " + Decimal(s.floor.value.minBytes.value))
      else None
  }

  predicate NonNegative(v: Option<int>) {
    v.Some? ==> v.value >= 0
  }

  predicate GoodDuration(env: Env, d: Option<string>) {
    d.Some? ==> env.parseDuration(d.value).Some? && env.parseDuration(d.value).value >= 0
  }

  /** Every limit is non-negative and every duration parses to a non-negative one. */
  predicate Sound(env: Env, s: ConfigSpec) {
    && NonNegative(s.perIp) && NonNegative(s.maxActive) && NonNegative(s.maxQueued)
    && GoodDuration(env, s.relayIdleTimeout) && GoodDuration(env, s.relayMaxDuration)
    && GoodDuration(env, s.tcpKeepAlive) && GoodDuration(env, s.dialTimeout)
    && (s.floor.Some? ==>
          && GoodDuration(env, s.floor.value.window) && GoodDuration(env, s.floor.value.grace)
          && NonNegative(s.floor.value.minBytes))
  }

  lemma {:induction false} FirstNegativeFinds(fields: seq<(string, Option<Int32>)>)
    ensures FirstNegative(fields).None? <==> forall i :: 0 <= i < |fields| ==> NonNegative(fields[i].1)
  {
    if fields == [] {
    } else {
      FirstNegativeFinds(fields[1..]);
      assert forall i :: 1 <= i < |fields| ==> fields[i] == fields[1..][i - 1];
    }
  }

  lemma {:induction false} FirstBadDurationFinds(env: Env, fields: seq<(string, Option<string>)>)
    ensures FirstBadDuration(env, fields).None? <==>
      forall i :: 0 <= i < |fields| ==> GoodDuration(env, fields[i].1)
  {
    if fields == [] {
    } else {
      FirstBadDurationFinds(env, fields[1..]);
      assert forall i :: 1 <= i < |fields| ==> fields[i] == fields[1..][i - 1];
    }
  }

  /** Validation passes exactly the sound specs. */
  lemma ValidateIsExact(env: Env, s: ConfigSpec)
    ensures Validate(env, s).None? <==> Sound(env, s)
  {
    var ints, durs := IntFields(s), DurationFields(s);
    FirstNegativeFinds(ints);
    FirstBadDurationFinds(env, durs);
    assert NonNegative(ints[0].1) && NonNegative(ints[1].1) && NonNegative(ints[2].1)
      <==> forall i :: 0 <= i < |ints| ==> NonNegative(ints[i].1);
    assert GoodDuration(env, durs[0].1) && GoodDuration(env, durs[1].1) && GoodDuration(env, durs[2].1)
        && GoodDuration(env, durs[3].1) && GoodDuration(env, durs[4].1) && GoodDuration(env, durs[5].1)
      <==> forall i :: 0 <= i < |durs| ==> GoodDuration(env, durs[i].1);
  }

  // ---------------------------------------------------------------- claiming

  datatype Resolution = Resolution(config: Option<NamedConfig>, reason: string, message: string)

  function Invalid(message: string): Resolution {
    Resolution(None, "InvalidParameters", message)
  }

  function ResolveClassConfig(env: Env, snap: Snapshot, name: string, gc: GatewayClass): Resolution {
    if gc.parametersRef.None? then
      Invalid("GatewayClass " + name + " must set spec.parametersRef")
    else
      var ref := gc.parametersRef.value;
      if ref.group != RSYNC_GROUP || ref.kind != "GatewayConfig" then
        Invalid("unsupported parametersRef group/kind " + ref.group + "/" + ref.kind)
      else if ref.ns.Some? && ref.ns.value != "" then
        Invalid("parametersRef.namespace must be empty")
      else if ref.name !in snap.configs then
        Invalid("GatewayConfig " + Quote(ref.name) + " not found")
      else
        var spec := snap.configs[ref.name].spec;
        var err := Validate(env, spec);
        if err.Some? then Invalid("GatewayConfig " + Quote(ref.name) + " is invalid: " + err.value)
        else Resolution(Some(NamedConfig(ref.name, spec)), "Accepted", "GatewayConfig " + Quote(ref.name) + " is valid")
  }

  function ClaimOf(env: Env, snap: Snapshot, name: string, gc: GatewayClass): Claim {
    if gc.controllerName != CONTROLLER then Claim(name, false, false, "", "", None)
    else
      var r := ResolveClassConfig(env, snap, name, gc);
      Claim(name, true, r.reason == "Accepted", r.reason, r.message, r.config)
  }

  ghost function ClaimsOf(env: Env, snap: Snapshot): map<string, Claim> {
    map name | name in snap.classes :: ClaimOf(env, snap, name, snap.classes[name])
  }

  /** Whatever order the classes are visited in, the claims are the same. */
  method ClaimClasses(env: Env, snap: Snapshot) returns (claims: map<string, Claim>)
    ensures claims == ClaimsOf(env, snap)
  {
    claims := map[];
    var todo := snap.classes.Keys;
    while todo != {}
      invariant todo <= snap.classes.Keys
      invariant claims.Keys == snap.classes.Keys - todo
      invariant forall name :: name in claims ==> claims[name] == ClaimOf(env, snap, name, snap.classes[name])
      decreases todo
    {
      var name :| name in todo;
      todo := todo - {name};
      claims := claims[name := ClaimOf(env, snap, name, snap.classes[name])];
    }
  }

  /** The class of a Gateway is ours and accepted. */
  predicate Managed(claims: map<string, Claim>, gw: Gateway) {
    gw.className in claims && claims[gw.className].claimed && claims[gw.className].accepted
  }

  lemma ResolvedIsValid(env: Env, snap: Snapshot, name: string, gc: GatewayClass)
    ensures var r := ResolveClassConfig(env, snap, name, gc);
      && (r.reason == "Accepted" <==> r.config.Some?)
      && (r.config.Some? ==>
            && r.config.value.name in snap.configs
            && snap.configs[r.config.value.name].spec == r.config.value.spec
            && Validate(env, r.config.value.spec).None?)
  {
    assert |"Accepted"| != |"InvalidParameters"|;
  }

  /** A claim is accepted exactly when it carries a configuration, and then that
      configuration is in the cluster under its name and is sound. */
  lemma AcceptedClaimIsSound(env: Env, snap: Snapshot, name: string)
    requires name in snap.classes
    ensures var c := ClaimsOf(env, snap)[name];
      && (c.claimed && c.accepted <==> c.config.Some?)
      && (c.config.Some? ==>
            && c.config.value.name in snap.configs
            && snap.configs[c.config.value.name].spec == c.config.value.spec
            && Sound(env, c.config.value.spec))
  {
    var c := ClaimOf(env, snap, name, snap.classes[name]);
    ResolvedIsValid(env, snap, name, snap.classes[name]);
    if c.config.Some? {
      ValidateIsExact(env, c.config.value.spec);
    }
  }

  /** A parameters reference that names a GatewayConfig: ours by group and kind, without a
      namespace, and there. */
  predicate NamesConfig(snap: Snapshot, ref: ParametersRef) {
    && ref.group == "gateway.rsync.zjusct.io" && ref.kind == "GatewayConfig"
    && (ref.ns == None || ref.ns == Some("")) && ref.name in snap.configs
  }

  /** A class is claimed exactly when it names our controller, and accepted exactly when,
      besides, its parameters name a sound configuration, which it then carries. */
  lemma ClaimIff(env: Env, snap: Snapshot, name: string)
    requires name in snap.classes
    ensures var c, gc := ClaimsOf(env, snap)[name], snap.classes[name];
      && c.name == name
      && (c.claimed <==> gc.controllerName == "gateway.rsync.zjusct.io/rsync-gateway")
      && (c.accepted <==> c.claimed && gc.parametersRef.Some? && NamesConfig(snap, gc.parametersRef.value)
                          && Sound(env, snap.configs[gc.parametersRef.value.name].spec))
      && c.config == (if c.accepted then
           Some(NamedConfig(gc.parametersRef.value.name, snap.configs[gc.parametersRef.value.name].spec)) else None)
      && (c.claimed ==> c.reason == if c.accepted then "Accepted" else "InvalidParameters")
  {
    var gc := snap.classes[name];
    ResolvedIsValid(env, snap, name, gc);
    if gc.parametersRef.Some? && gc.parametersRef.value.name in snap.configs {
      ValidateIsExact(env, snap.configs[gc.parametersRef.value.name].spec);
    }
  }
}
