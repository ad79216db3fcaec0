/** Sharing raw DNS transports between name servers that differ only in wrapper parameters. */
module DnsClients {
  import opened Wrappers

  type Params = map<string, string>

  datatype NameServer = NameServer(
    net: string, addr: string, adapter: nat, proxyName: string, params: Params, preferH3: bool)

  /** Parsing that the wrappers rely on: an ecs prefix or address, and the number of a known record type. */
  datatype Parsers = Parsers(ecs: string -> Option<nat>, qtype: string -> Option<nat>)

  /** What a constructor of a transport keeps of its arguments. */
  datatype Config =
    | DoT(addr: string, skipVerify: bool, certName: string, disableReuse: bool, adapter: nat, proxyName: string)
    | DoH(addr: string, preferH3: bool, onlyH3: bool, skipVerify: bool, certName: string, adapter: nat, proxyName: string)
    | DoQ(addr: string, skipVerify: bool, certName: string, adapter: nat, proxyName: string)
    | Plain(addr: string, tcp: bool, adapter: nat, proxyName: string)
    | Dhcp(addr: string)
    | System
    | Tailscale(addr: string)
    | RCode(addr: string)

  datatype Client =
    | Raw(id: nat, config: Config)
    | EcsLayer(inner: Client, prefix: nat, force: bool)
    | DisableLayer(inner: Client, types: set<nat>)

  const TYPE_A := 1
  const TYPE_AAAA := 28

  // ---- parameters ----

  function Param(params: Params, key: string): string {
    if key in params then params[key] else ""
  }

  predicate HasPrefix(s: string, prefix: string) {
    |prefix| <= |s| && s[..|prefix|] == prefix
  }

  const QTYPE_PREFIX := "disable-qtype-"

  predicate IsDisableTypesParam(key: string) {
    key == "disable-ipv4" || key == "disable-ipv6" || HasPrefix(key, QTYPE_PREFIX)
  }

  predicate IsEdns0SubnetParam(key: string) {
    key == "ecs" || key == "ecs-override"
  }

  predicate IsWrapperOnlyParam(key: string) {
    IsDisableTypesParam(key) || IsEdns0SubnetParam(key)
  }

  // ---- building a client ----

  function ConfigOf(ns: NameServer): Config {
    var p := ns.params;
    var skipVerify := Param(p, "skip-cert-verify") == "true";
    var certName := Param(p, "name-cert-verify");
    if ns.net == "tls" then
      DoT(ns.addr, skipVerify, certName, Param(p, "disable-reuse") == "true", ns.adapter, ns.proxyName)
    else if ns.net == "https" then
      DoH(ns.addr, ns.preferH3, Param(p, "h3") == "true", skipVerify, certName, ns.adapter, ns.proxyName)
    else if ns.net == "dhcp" then Dhcp(ns.addr)
    else if ns.net == "system" then System
    else if ns.net == "tailscale" then Tailscale(ns.addr)
    else if ns.net == "rcode" then RCode(ns.addr)
    else if ns.net == "quic" then DoQ(ns.addr, skipVerify, certName, ns.adapter, ns.proxyName)
    else Plain(ns.addr, HasPrefix(ns.net, "tcp"), ns.adapter, ns.proxyName)
  }

  predicate Enabled(params: Params, key: string) {
    key in params && params[key] == "true"
  }

  /** What each kind of name server's transport is made with. */
  lemma ConfigMeans(ns: NameServer)
    ensures var p := ns.params;
            var certName := if "name-cert-verify" in p then p["name-cert-verify"] else "";
            var skip, reuse, h3 := Enabled(p, "skip-cert-verify"), Enabled(p, "disable-reuse"), Enabled(p, "h3");
            && (ns.net == "tls" ==> ConfigOf(ns) == DoT(ns.addr, skip, certName, reuse, ns.adapter, ns.proxyName))
            && (ns.net == "https" ==> ConfigOf(ns) == DoH(ns.addr, ns.preferH3, h3, skip, certName, ns.adapter, ns.proxyName))
            && (ns.net == "quic" ==> ConfigOf(ns) == DoQ(ns.addr, skip, certName, ns.adapter, ns.proxyName))
            && (ns.net == "dhcp" ==> ConfigOf(ns) == Dhcp(ns.addr)) && (ns.net == "system" ==> ConfigOf(ns) == System)
            && (ns.net == "tailscale" ==> ConfigOf(ns) == Tailscale(ns.addr)) && (ns.net == "rcode" ==> ConfigOf(ns) == RCode(ns.addr))
            && (ns.net == "tcp" ==> ConfigOf(ns) == Plain(ns.addr, true, ns.adapter, ns.proxyName))
            && (ns.net == "" || ns.net == "udp" ==> ConfigOf(ns) == Plain(ns.addr, false, ns.adapter, ns.proxyName))
  {
    assert "udp"[0] == 'u' && "tcp"[0] == 't' && "tcp"[..3] == "tcp";
    assert HasPrefix("tcp", "tcp") && !HasPrefix("", "tcp");
    assert "udp"[..3][0] == 'u';
  }

  predicate Disables(ps: Parsers, params: Params, key: string) {
    key in params && HasPrefix(key, QTYPE_PREFIX) && params[key] == "true" && ps.qtype(key[|QTYPE_PREFIX|..]).Some?
  }

  function FixedTypes(params: Params): set<nat> {
    (if Param(params, "disable-ipv4") == "true" then {TYPE_A} else {})
    + (if Param(params, "disable-ipv6") == "true" then {TYPE_AAAA} else {})
  }

  function DisabledTypes(ps: Parsers, params: Params): set<nat> {
    FixedTypes(params)
    + set key | key in params && Disables(ps, params, key) :: ps.qtype(key[|QTYPE_PREFIX|..]).value
  }

  function EcsPrefix(ps: Parsers, params: Params): Option<nat> {
    if Param(params, "ecs") != "" then ps.ecs(Param(params, "ecs")) else None
  }

  function WrapEcs(ps: Parsers, c: Client, params: Params): Client {
    var prefix := EcsPrefix(ps, params);
    if prefix.Some? then EcsLayer(c, prefix.value, Param(params, "ecs-override") == "true") else c
  }

  function WrapDisable(ps: Parsers, c: Client, params: Params): Client {
    var types := DisabledTypes(ps, params);
    if types != {} then DisableLayer(c, types) else c
  }

  function Wrap(ps: Parsers, c: Client, params: Params): Client {
    WrapDisable(ps, WrapEcs(ps, c, params), params)
  }

  function Peel(c: Client): (r: Client)
    ensures r.Raw?
  {
    if c.Raw? then c else Peel(c.inner)
  }

  /** The client a name server gets when it shares nothing: its own transport, wrapped by its own params. */
  function FromScratch(ps: Parsers, id: nat, ns: NameServer): Client {
    Wrap(ps, Raw(id, ConfigOf(ns)), ns.params)
  }

  /** Wrapping adds layers and never touches the transport. */
  lemma PeelWrap(ps: Parsers, c: Client, params: Params)
    ensures Peel(Wrap(ps, c, params)) == Peel(c)
  {
  }

  /** A layer of c answers questions of type t itself. */
  predicate Blocks(c: Client, t: nat) {
    !c.Raw? && ((c.DisableLayer? && t in c.types) || Blocks(c.inner, t))
  }

  /** The client subnets c adds to a query, outermost layer first. */
  function Subnets(c: Client): seq<(nat, bool)> {
    if c.Raw? then [] else (if c.EcsLayer? then [(c.prefix, c.force)] else []) + Subnets(c.inner)
  }

  /** What the layers built from params do: they block exactly the types the params name, and add at most the one subnet. */
  lemma LayersMean(ps: Parsers, raw: Client, params: Params, t: nat)
    requires raw.Raw?
    ensures Blocks(Wrap(ps, raw, params), t) <==>
              || (t == TYPE_A && "disable-ipv4" in params && params["disable-ipv4"] == "true")
              || (t == TYPE_AAAA && "disable-ipv6" in params && params["disable-ipv6"] == "true")
              || exists key :: Disables(ps, params, key) && ps.qtype(key[|QTYPE_PREFIX|..]) == Some(t)
    ensures Subnets(Wrap(ps, raw, params)) ==
            if "ecs" in params && params["ecs"] != "" && ps.ecs(params["ecs"]).Some?
            then [(ps.ecs(params["ecs"]).value, Param(params, "ecs-override") == "true")] else []
  {
    var e, types := WrapEcs(ps, raw, params), DisabledTypes(ps, params);
    assert Subnets(e) == Subnets(Wrap(ps, raw, params));
    assert !Blocks(e, t);
    assert Blocks(Wrap(ps, raw, params), t) <==> t in types;
    assert Subnets(raw) == [];
    if t in types && t !in FixedTypes(params) {
      var key :| key in params && Disables(ps, params, key) && ps.qtype(key[|QTYPE_PREFIX|..]).value == t;
      assert ps.qtype(key[|QTYPE_PREFIX|..]) == Some(t);
    }
  }

  predicate SameParam(p: Params, q: Params, key: string) {
    (key in p <==> key in q) && Param(p, key) == Param(q, key)
  }

  /** The wrappers read nothing but wrapper-only params. */
  lemma WrapReadsWrapperParams(ps: Parsers, c: Client, p: Params, q: Params)
    requires forall key | IsWrapperOnlyParam(key) :: SameParam(p, q, key)
    ensures Wrap(ps, c, p) == Wrap(ps, c, q)
  {
    assert SameParam(p, q, "ecs") && SameParam(p, q, "ecs-override");
    assert SameParam(p, q, "disable-ipv4") && SameParam(p, q, "disable-ipv6");
    forall key | HasPrefix(key, QTYPE_PREFIX) ensures Disables(ps, p, key) <==> Disables(ps, q, key) {
      assert IsWrapperOnlyParam(key) && SameParam(p, q, key);
    }
    assert DisabledTypes(ps, p) == DisabledTypes(ps, q);
  }

  method DisabledTypesOf(ps: Parsers, params: Params) returns (types: set<nat>)
    ensures types == DisabledTypes(ps, params)
  {
    types := {};
    if Param(params, "disable-ipv4") == "true" {
      types := types + {TYPE_A};
    }
    if Param(params, "disable-ipv6") == "true" {
      types := types + {TYPE_AAAA};
    }
    var rest, done: set<string> := params.Keys, {};
    while rest != {}
      invariant done !! rest && done + rest == params.Keys
      invariant types == FixedTypes(params)
                         + set key | key in done && Disables(ps, params, key) :: ps.qtype(key[|QTYPE_PREFIX|..]).value
      decreases rest
    {
      var key :| key in rest;
      if HasPrefix(key, QTYPE_PREFIX) && params[key] == "true" {
        var parsed := ps.qtype(key[|QTYPE_PREFIX|..]);
        if parsed.Some? {
          types := types + {parsed.value};
        }
      }
      rest, done := rest - {key}, done + {key};
    }
    assert done == params.Keys;
  }

  method RewrapClient(ps: Parsers, c: Client, params: Params) returns (r: Client)
    ensures r == Wrap(ps, Peel(c), params)
  {
    r := c;
    while !r.Raw?
      invariant Peel(r) == Peel(c)
      decreases r
    {
      r := r.inner;
    }
    var prefix := EcsPrefix(ps, params);
    if prefix.Some? {
      r := EcsLayer(r, prefix.value, Param(params, "ecs-override") == "true");
    }
    var types := DisabledTypesOf(ps, params);
    if types != {} {
      r := DisableLayer(r, types);
    }
  }

  // ---- comparing name servers ----

  ghost predicate Agrees(a: Params, b: Params) {
    forall k | k in a && !IsWrapperOnlyParam(k) :: k in b && b[k] == a[k]
  }

  ghost predicate TransportEqual(a: NameServer, b: NameServer) {
    && a.net == b.net && a.addr == b.addr && a.adapter == b.adapter && a.proxyName == b.proxyName
    && a.preferH3 == b.preferH3 && Agrees(a.params, b.params) && Agrees(b.params, a.params)
  }

  /** A name server without its wrapper-only parameters. */
  function TransportOf(ns: NameServer): NameServer {
    ns.(params := map k | k in ns.params && !IsWrapperOnlyParam(k) :: ns.params[k])
  }

  method ParamsAgree(a: Params, b: Params) returns (r: bool)
    ensures r <==> Agrees(a, b)
  {
    var rest := a.Keys;
    while rest != {}
      invariant rest <= a.Keys
      invariant forall k | k in a && k !in rest && !IsWrapperOnlyParam(k) :: k in b && b[k] == a[k]
      decreases rest
    {
      var k :| k in rest;
      rest := rest - {k};
      if !IsWrapperOnlyParam(k) && (k !in b || b[k] != a[k]) {
        return false;
      }
    }
    return true;
  }

  method SameTransport(a: NameServer, b: NameServer) returns (r: bool)
    ensures r <==> TransportEqual(a, b)
  {
    if a.net != b.net || a.addr != b.addr || a.adapter != b.adapter || a.proxyName != b.proxyName || a.preferH3 != b.preferH3 {
      return false;
    }
    var forth := ParamsAgree(a.params, b.params);
    if !forth {
      return false;
    }
    r := ParamsAgree(b.params, a.params);
  }

  /** transportEqual is equality of what remains without wrapper-only params: an equivalence that Equal implies. */
  lemma TransportEqualIsEquality(a: NameServer, b: NameServer)
    ensures TransportEqual(a, b) <==> TransportOf(a) == TransportOf(b)
  {
    var p, q := TransportOf(a).params, TransportOf(b).params;
    if Agrees(a.params, b.params) && Agrees(b.params, a.params) {
      assert p == q;
    }
    if p == q {
      forall k | k in a.params && !IsWrapperOnlyParam(k) ensures k in b.params && b.params[k] == a.params[k] {
        assert k in p;
        assert k in q;
      }
      forall k | k in b.params && !IsWrapperOnlyParam(k) ensures k in a.params && a.params[k] == b.params[k] {
        assert k in q;
        assert k in p;
      }
    }
  }

  lemma TransportEqualIsEquivalence(a: NameServer, b: NameServer, c: NameServer)
    ensures TransportEqual(a, a)
    ensures TransportEqual(a, b) ==> TransportEqual(b, a)
    ensures TransportEqual(a, b) && TransportEqual(b, c) ==> TransportEqual(a, c)
    ensures a == b ==> TransportEqual(a, b)
  {
  }

  lemma TransportParam(a: NameServer, b: NameServer, key: string)
    requires TransportEqual(a, b) && !IsWrapperOnlyParam(key)
    ensures Param(a.params, key) == Param(b.params, key)
  {
  }

  lemma TransportKeys()
    ensures !IsWrapperOnlyParam("skip-cert-verify") && !IsWrapperOnlyParam("name-cert-verify")
    ensures !IsWrapperOnlyParam("disable-reuse") && !IsWrapperOnlyParam("h3")
  {
    assert "skip-cert-verify"[0] != 'd' && "name-cert-verify"[0] != 'd' && "disable-reuse"[8] == 'r';
    assert "disable-ipv4"[8] == 'i' && "disable-ipv6"[8] == 'i';
    assert |"disable-reuse"| < |QTYPE_PREFIX| && |"h3"| < |QTYPE_PREFIX|;
    assert QTYPE_PREFIX[0] == 'd' && "skip-cert-verify"[..|QTYPE_PREFIX|][0] == 's' && "name-cert-verify"[..|QTYPE_PREFIX|][0] == 'n';
  }

  /** No constructor reads a wrapper-only parameter, so a shared transport is the one its user would have built. */
  lemma SameTransportSameConfig(a: NameServer, b: NameServer)
    requires TransportEqual(a, b)
    ensures ConfigOf(a) == ConfigOf(b)
  {
    TransportKeys();
    TransportParam(a, b, "skip-cert-verify");
    TransportParam(a, b, "name-cert-verify");
    TransportParam(a, b, "disable-reuse");
    TransportParam(a, b, "h3");
  }

  // ---- the cache ----

  datatype Entry = Entry(ns: NameServer, client: Client)

  datatype Cache = Cache(entries: seq<Entry>, built: nat)

  /** The transports that occur in entries. */
  function Transports(entries: seq<Entry>): set<NameServer> {
    set e | e in entries :: TransportOf(e.ns)
  }

  ghost predicate EntryOk(ps: Parsers, e: Entry) {
    e.client == FromScratch(ps, Peel(e.client).id, e.ns)
  }

  /** Entries that share a transport are exactly those whose name servers are transport-equal. */
  ghost predicate SharesRight(a: Entry, b: Entry) {
    Peel(a.client).id == Peel(b.client).id <==> TransportOf(a.ns) == TransportOf(b.ns)
  }

  ghost predicate AllShareRight(entries: seq<Entry>) {
    forall a, b | a in entries && b in entries :: SharesRight(a, b)
  }

  ghost predicate Inv(ps: Parsers, c: Cache) {
    && (forall e | e in c.entries :: EntryOk(ps, e) && Peel(e.client).id < c.built)
    && AllShareRight(c.entries)
    && |Transports(c.entries)| == c.built
  }

  /** The entry ns gets when no entry has an equal name server. */
  function Insert(c: Cache, e: Entry, isNew: bool): Cache {
    Cache(c.entries + [e], if isNew then c.built + 1 else c.built)
  }

  lemma SnocSharesRight(entries: seq<Entry>, e: Entry)
    requires AllShareRight(entries) && forall b | b in entries :: SharesRight(e, b)
    ensures AllShareRight(entries + [e])
    ensures Transports(entries + [e]) == Transports(entries) + {TransportOf(e.ns)}
  {
  }

  lemma ShareKeepsInv(ps: Parsers, c: Cache, donor: Entry, ns: NameServer)
    requires Inv(ps, c) && donor in c.entries && TransportEqual(donor.ns, ns)
    ensures Inv(ps, Insert(c, Entry(ns, Wrap(ps, Peel(donor.client), ns.params)), false))
  {
    var e := Entry(ns, Wrap(ps, Peel(donor.client), ns.params));
    var after := Insert(c, e, false);
    TransportEqualIsEquality(donor.ns, ns);
    SameTransportSameConfig(donor.ns, ns);
    assert EntryOk(ps, donor);
    PeelWrap(ps, Raw(Peel(donor.client).id, ConfigOf(donor.ns)), donor.ns.params);
    PeelWrap(ps, Peel(donor.client), ns.params);
    assert EntryOk(ps, e);
    forall b | b in c.entries ensures SharesRight(e, b) {
      assert SharesRight(donor, b);
    }
    SnocSharesRight(c.entries, e);
    assert Transports(after.entries) == Transports(c.entries);
  }

  lemma BuildKeepsInv(ps: Parsers, c: Cache, ns: NameServer)
    requires Inv(ps, c) && forall e | e in c.entries :: !TransportEqual(e.ns, ns)
    ensures Inv(ps, Insert(c, Entry(ns, FromScratch(ps, c.built, ns)), true))
  {
    var e := Entry(ns, FromScratch(ps, c.built, ns));
    var after := Insert(c, e, true);
    PeelWrap(ps, Raw(c.built, ConfigOf(ns)), ns.params);
    assert EntryOk(ps, e);
    forall b | b in c.entries ensures SharesRight(e, b) && TransportOf(b.ns) != TransportOf(ns) {
      assert !TransportEqual(b.ns, ns) && Peel(b.client).id < c.built;
      TransportEqualIsEquality(b.ns, ns);
    }
    SnocSharesRight(c.entries, e);
    assert TransportOf(ns) !in Transports(c.entries);
  }

  /** The entry's client is the one its name server would build from scratch, on one of the transports built. */
  ghost predicate BuildsTo(ps: Parsers, built: nat, e: Entry) {
    exists id: nat :: id < built && e.client == FromScratch(ps, id, e.ns)
  }

  /**
   Whatever calls came before, a served client is the one its name server would
   build from scratch, up to the identity of the transport; two served clients have
   one transport exactly when transportEqual holds of their name servers.
   */
  lemma ServedAsBuilt(ps: Parsers, c: Cache, a: Entry, b: Entry)
    requires Inv(ps, c) && a in c.entries && b in c.entries
    ensures BuildsTo(ps, c.built, a)
    ensures Peel(a.client) == Peel(b.client) <==> TransportEqual(a.ns, b.ns)
  {
    assert EntryOk(ps, a) && EntryOk(ps, b) && SharesRight(a, b);
    TransportEqualIsEquality(a.ns, b.ns);
    PeelWrap(ps, Raw(Peel(a.client).id, ConfigOf(a.ns)), a.ns.params);
    PeelWrap(ps, Raw(Peel(b.client).id, ConfigOf(b.ns)), b.ns.params);
    if TransportEqual(a.ns, b.ns) {
      SameTransportSameConfig(a.ns, b.ns);
    }
  }

  ghost predicate AllServed(nameservers: seq<NameServer>, clients: seq<Client>, entries: seq<Entry>) {
    |clients| == |nameservers| && forall k | 0 <= k < |clients| :: Entry(nameservers[k], clients[k]) in entries
  }

  /** e is the first entry whose name server is ns. */
  ghost predicate FirstEqual(entries: seq<Entry>, ns: NameServer, e: Entry) {
    exists i :: 0 <= i < |entries| && entries[i] == e && e.ns == ns && forall k | 0 <= k < i :: entries[k].ns != ns
  }

  /** e is the first entry with the transport of ns. */
  ghost predicate FirstShared(entries: seq<Entry>, ns: NameServer, e: Entry) {
    exists i :: 0 <= i < |entries| && entries[i] == e && TransportEqual(e.ns, ns) &&
                forall k | 0 <= k < i :: !TransportEqual(entries[k].ns, ns)
  }

  /** Scans for an equal name server, and meanwhile for the first one with the same transport. */
  method Find(entries: seq<Entry>, ns: NameServer) returns (exact: bool, donor: Option<Entry>)
    ensures exact ==> donor.Some? && FirstEqual(entries, ns, donor.value)
    ensures !exact && donor.Some? ==> FirstShared(entries, ns, donor.value)
    ensures !exact ==> forall e | e in entries :: e.ns != ns
    ensures donor.None? ==> forall e | e in entries :: !TransportEqual(e.ns, ns)
  {
    donor := None;
    for i := 0 to |entries|
      invariant forall k | 0 <= k < i :: entries[k].ns != ns
      invariant donor.None? ==> forall k | 0 <= k < i :: !TransportEqual(entries[k].ns, ns)
      invariant donor.Some? ==> FirstShared(entries, ns, donor.value)
    {
      if entries[i].ns == ns {
        return true, Some(entries[i]);
      }
      if donor.None? {
        var same := SameTransport(entries[i].ns, ns);
        if same {
          donor := Some(entries[i]);
        }
      }
    }
    exact := false;
  }

  /** What Find promises, as ClientFor needs it. */
  lemma FoundIsShared(entries: seq<Entry>, ns: NameServer, e: Entry)
    requires FirstEqual(entries, ns, e) || FirstShared(entries, ns, e)
    ensures e in entries && TransportEqual(e.ns, ns)
  {
    TransportEqualIsEquivalence(ns, ns, ns);
  }

  lemma ServedGrows(nameservers: seq<NameServer>, clients: seq<Client>, entries: seq<Entry>, longer: seq<Entry>)
    requires AllServed(nameservers, clients, entries) && entries <= longer
    ensures AllServed(nameservers, clients, longer)
  {
    forall k | 0 <= k < |clients| ensures Entry(nameservers[k], clients[k]) in longer {
      assert Entry(nameservers[k], clients[k]) in entries;
    }
  }

  lemma ServedSnoc(nameservers: seq<NameServer>, clients: seq<Client>, i: nat, c: Client, entries: seq<Entry>)
    requires i < |nameservers| && AllServed(nameservers[..i], clients, entries) && Entry(nameservers[i], c) in entries
    ensures AllServed(nameservers[..i + 1], clients + [c], entries)
  {
    forall k | 0 <= k <= i ensures Entry(nameservers[..i + 1][k], (clients + [c])[k]) in entries {
      if k < i {
        assert Entry(nameservers[..i][k], clients[k]) in entries;
      }
    }
  }

  /** The cache that every NewResolver call starts with. */
  class ClientCache {
    const parsers: Parsers
    var entries: seq<Entry>
    var built: nat

    ghost predicate Valid()
      reads this
    {
      Inv(parsers, Cache(entries, built))
    }

    constructor (parsers: Parsers)
      ensures Valid() && entries == [] && built == 0 && this.parsers == parsers
    {
      this.parsers := parsers;
      entries, built := [], 0;
    }

    /** One round of the outer loop: an equal name server's client, a re-wrapped one, or a new one. */
    method ClientFor(ns: NameServer) returns (r: Client)
      requires Valid()
      modifies this
      ensures Valid() && Entry(ns, r) in entries && old(entries) <= entries
      ensures built == old(built) + if exists e :: e in old(entries) && TransportEqual(e.ns, ns) then 0 else 1
      ensures (exists e :: e in old(entries) && e.ns == ns) ==> entries == old(entries)
    {
      var found, donor := Find(entries, ns);
      ghost var before := Cache(entries, built);
      if donor.Some? {
        FoundIsShared(entries, ns, donor.value);
      }
      if found {
        r := donor.value.client;
      } else if donor.Some? {
        r := RewrapClient(parsers, donor.value.client, ns.params);
        ShareKeepsInv(parsers, before, donor.value, ns);
        entries := entries + [Entry(ns, r)];
      } else {
        r := RewrapClient(parsers, Raw(built, ConfigOf(ns)), ns.params);
        BuildKeepsInv(parsers, before, ns);
        built := built + 1;
        entries := entries + [Entry(ns, r)];
      }
    }

    method CacheTransform(nameservers: seq<NameServer>) returns (result: seq<Client>)
      requires Valid()
      modifies this
      ensures Valid() && old(entries) <= entries && AllServed(nameservers, result, entries)
    {
      result := [];
      for i := 0 to |nameservers|
        invariant Valid() && old(entries) <= entries && AllServed(nameservers[..i], result, entries)
      {
        ghost var before := entries;
        var c := ClientFor(nameservers[i]);
        ServedGrows(nameservers[..i], result, before, entries);
        ServedSnoc(nameservers, result, i, c, entries);
        result := result + [c];
      }
      assert nameservers[..|nameservers|] == nameservers;
    }
  }

  /** Every name server of every call was served by an entry. */
  ghost predicate AllCallsServed(calls: seq<seq<NameServer>>, results: seq<seq<Client>>, entries: seq<Entry>) {
    |results| == |calls| && forall i | 0 <= i < |calls| :: AllServed(calls[i], results[i], entries)
  }

  lemma CallsServedSnoc(calls: seq<seq<NameServer>>, results: seq<seq<Client>>, i: nat, r: seq<Client>, entries: seq<Entry>, longer: seq<Entry>)
    requires i < |calls| && AllCallsServed(calls[..i], results, entries) && entries <= longer && AllServed(calls[i], r, longer)
    ensures AllCallsServed(calls[..i + 1], results + [r], longer)
  {
    forall k | 0 <= k < i + 1 ensures AllServed(calls[..i + 1][k], (results + [r])[k], longer) {
      if k < i {
        assert AllServed(calls[..i][k], results[k], entries);
        ServedGrows(calls[k], results[k], entries, longer);
      }
    }
  }

  lemma EntriesAsBuilt(ps: Parsers, c: Cache)
    requires Inv(ps, c)
    ensures forall e | e in c.entries :: BuildsTo(ps, c.built, e)
    ensures forall a, b | a in c.entries && b in c.entries :: Peel(a.client) == Peel(b.client) <==> TransportEqual(a.ns, b.ns)
  {
    forall a, b | a in c.entries && b in c.entries
      ensures BuildsTo(ps, c.built, a)
      ensures Peel(a.client) == Peel(b.client) <==> TransportEqual(a.ns, b.ns)
    {
      ServedAsBuilt(ps, c, a, b);
    }
  }

  /** The clients of every call made on one cache, and what the cache ends with. */
  method TransformCalls(parsers: Parsers, calls: seq<seq<NameServer>>) returns (results: seq<seq<Client>>, built: nat, entries: seq<Entry>)
    ensures Inv(parsers, Cache(entries, built)) && AllCallsServed(calls, results, entries)
    ensures forall e | e in entries :: BuildsTo(parsers, built, e)
    ensures forall a, b | a in entries && b in entries :: Peel(a.client) == Peel(b.client) <==> TransportEqual(a.ns, b.ns)
  {
    var cache := new ClientCache(parsers);
    results := [];
    for i := 0 to |calls|
      invariant cache.Valid() && cache.parsers == parsers && AllCallsServed(calls[..i], results, cache.entries)
    {
      ghost var before := cache.entries;
      var r := cache.CacheTransform(calls[i]);
      CallsServedSnoc(calls, results, i, r, before, cache.entries);
      results := results + [r];
    }
    assert calls[..|calls|] == calls;
    built, entries := cache.built, cache.entries;
    EntriesAsBuilt(parsers, Cache(entries, built));
  }
}
