/** The module table: which targets serve a module, and which one a client is sent to. */
module ModuleIndex {
  import opened Ordering

  datatype Target = Target(upstream: string, addr: string, useProxyProtocol: bool)

  datatype UpstreamConfig = UpstreamConfig(
    name: string, target: Target, modules: seq<string>, discover: bool,
    maxActive: int, maxQueued: int, perIp: int)

  /** One copy of the target for every time the module is listed. */
  function Copies(modules: seq<string>, m: string, t: Target): seq<Target> {
    if modules == [] then []
    else
      Copies(modules[..|modules| - 1], m, t) + if modules[|modules| - 1] == m then [t] else []
  }

  /** The targets of a module, in upstream order. */
  function TargetsOf(us: seq<UpstreamConfig>, m: string): seq<Target> {
    if us == [] then []
    else
      var u := us[|us| - 1];
      TargetsOf(us[..|us| - 1], m) + Copies(u.modules, m, u.target)
  }

  function Lookup(table: map<string, seq<Target>>, m: string): seq<Target> {
    if m in table then table[m] else []
  }

  /** The table gives every module its targets, and lists no module without any. */
  ghost predicate Indexes(table: map<string, seq<Target>>, us: seq<UpstreamConfig>) {
    && (forall m :: Lookup(table, m) == TargetsOf(us, m))
    && (forall m :: m in table ==> table[m] != [])
  }

  /** `out` adds the target to the modules listed. */
  ghost predicate Extends(table: map<string, seq<Target>>, out: map<string, seq<Target>>, modules: seq<string>, t: Target) {
    forall m :: Lookup(out, m) == Lookup(table, m) + Copies(modules, m, t)
  }

  lemma CopiesNext(modules: seq<string>, i: nat, m: string, t: Target)
    requires i < |modules|
    ensures Copies(modules[..i + 1], m, t) == Copies(modules[..i], m, t) + if modules[i] == m then [t] else []
  {
    assert modules[..i + 1][..i] == modules[..i];
  }

  lemma ExtendsNextAt(table: map<string, seq<Target>>, out: map<string, seq<Target>>, modules: seq<string>, i: nat, t: Target, m: string)
    requires i < |modules| && Lookup(out, m) == Lookup(table, m) + Copies(modules[..i], m, t)
    ensures Lookup(out[modules[i] := Lookup(out, modules[i]) + [t]], m) == Lookup(table, m) + Copies(modules[..i + 1], m, t)
  {
    var before, copies := Lookup(table, m), Copies(modules[..i], m, t);
    CopiesNext(modules, i, m, t);
    assert (before + copies) + [t] == before + (copies + [t]);
    assert copies + [] == copies;
  }

  lemma ExtendsNext(table: map<string, seq<Target>>, out: map<string, seq<Target>>, modules: seq<string>, i: nat, t: Target)
    requires i < |modules| && Extends(table, out, modules[..i], t)
    ensures Extends(table, out[modules[i] := Lookup(out, modules[i]) + [t]], modules[..i + 1], t)
  {
    forall m {
      ExtendsNextAt(table, out, modules, i, t, m);
    }
  }

  method AddModules(table: map<string, seq<Target>>, u: UpstreamConfig) returns (out: map<string, seq<Target>>)
    requires forall m :: m in table ==> table[m] != []
    ensures Extends(table, out, u.modules, u.target)
    ensures forall m :: m in out ==> out[m] != []
  {
    out := table;
    for i := 0 to |u.modules|
      invariant Extends(table, out, u.modules[..i], u.target)
      invariant forall m :: m in out ==> out[m] != []
    {
      ExtendsNext(table, out, u.modules, i, u.target);
      out := out[u.modules[i] := Lookup(out, u.modules[i]) + [u.target]];
    }
    assert u.modules[..|u.modules|] == u.modules;
  }

  method BuildModuleTargets(us: seq<UpstreamConfig>) returns (table: map<string, seq<Target>>)
    ensures Indexes(table, us)
  {
    table := map[];
    for i := 0 to |us|
      invariant Indexes(table, us[..i])
    {
      assert us[..i + 1][..i] == us[..i];
      table := AddModules(table, us[i]);
    }
    assert us[..|us|] == us;
  }

  lemma IndexIsUnique(a: map<string, seq<Target>>, b: map<string, seq<Target>>, us: seq<UpstreamConfig>)
    requires Indexes(a, us) && Indexes(b, us)
    ensures a == b
  {
    forall m | m in a || m in b ensures m in a && m in b && a[m] == b[m] {
      assert Lookup(a, m) == Lookup(b, m);
    }
  }

  lemma {:induction false} CopiesMembers(modules: seq<string>, m: string, t: Target)
    ensures m in modules <==> Copies(modules, m, t) != []
    ensures forall x :: x in Copies(modules, m, t) ==> x == t
  {
    if modules == [] {
    } else {
      CopiesMembers(modules[..|modules| - 1], m, t);
      assert modules == modules[..|modules| - 1] + [modules[|modules| - 1]];
    }
  }

  /** A module's targets are those of the upstreams that list it. */
  lemma {:induction false} TargetsMembers(us: seq<UpstreamConfig>, m: string, t: Target)
    ensures t in TargetsOf(us, m) <==> exists u :: u in us && m in u.modules && u.target == t
  {
    if us == [] {
    } else {
      var front, last := us[..|us| - 1], us[|us| - 1];
      assert us == front + [last];
      TargetsMembers(front, m, t);
      CopiesMembers(last.modules, m, last.target);
      if m in last.modules {
        assert Copies(last.modules, m, last.target)[0] in Copies(last.modules, m, last.target);
      }
      assert forall u :: u in us <==> u in front || u == last;
    }
  }

  // ---------------------------------------------------------------- choosing a target

  /** 32-bit FNV-1a of the address bytes. */
  function Fnv1a(bytes: seq<bv8>): bv32 {
    if bytes == [] then 2166136261
    else (Fnv1a(bytes[..|bytes| - 1]) ^ (bytes[|bytes| - 1] as bv32)) * 16777619
  }

  /** Published values of the hash. */
  lemma FnvVectors()
    ensures Fnv1a([]) == 0x811c9dc5
    ensures Fnv1a([0x61]) == 0xe40c292c
    ensures Fnv1a([0x66, 0x6f]) == 0x6222e842
  {
    assert [0x61 as bv8][..0] == [];
    assert [0x66 as bv8][..0] == [];
    assert [0x66 as bv8, 0x6f][..1] == [0x66];
  }

  /** The chosen index for a client whose normalised address is `ip` (None when the text is
      not an address): the hash modulo the count, and the first target without a choice or an
      address. None where the 32-bit modulus would be zero and the program panics. */
  function ChooseTarget(ip: Option<seq<bv8>>, count: nat): (r: Option<nat>)
    ensures count > 0 && r.Some? ==> r.value < count
    ensures r.None? <==> count > 1 && ip.Some? && count % 0x1_0000_0000 == 0
    ensures count <= 1 || ip.None? ==> r == Some(0)
    ensures 1 < count < 0x1_0000_0000 && ip.Some? ==> r == Some(Fnv1a(ip.value) as int % count)
  {
    if count <= 1 || ip.None? then Some(0)
    else
      var modulus := count % 0x1_0000_0000;
      if modulus == 0 then None
      else
        var i: nat := Fnv1a(ip.value) as int % modulus;
        assert i < modulus <= count;
        Some(i)
  }
}
