/** From the committed state to sing-box's inbounds, endpoints and ordered route rules. */
module RouteCompiler {
  import opened Common
  import opened Bits
  import opened Routes
  import opened State
  import opened Setup

  // ---- the compiled config ----

  datatype Entry = ChannelEntry(ref: Ref) | RouterEntry | TunEntry
  datatype Action = Sniff | HijackDns | Reject | ToDirect | ToChannel(ref: Ref)

  /** One route rule: every stated condition must hold. An absent condition (empty, `None`, `false`) asks nothing. */
  datatype RouteRule = RouteRule(inbound: set<Entry>, udpPorts: set<nat>, dnsOnly: bool, cidrs: seq<RawNet>,
                                 matcher: Option<Matcher>, v6Only: bool, action: Action)

  datatype Inbound = Mixed(entry: Entry, port: nat) | TunDevice
  datatype Endpoint = Endpoint(ref: Ref, privateKey: string, address: seq<Cidr>, peer: Peer)
  datatype DnsStrategy = Ipv4Only | PreferIpv4
  datatype Failure = PortHeld(ref: Ref) | NoKeys(ref: Ref) | RouterPortHeld
                   | NotCached(rule: Id) | UnknownType(rule: Id) | Unusable(rule: Id)

  datatype Config = Config(inbounds: seq<Inbound>, endpoints: seq<Endpoint>, rules: seq<RouteRule>,
                           geoSets: set<Matcher>, dns: Option<DnsStrategy>)

  /** What the compiler consults besides the state: address parsing, the verified geo cache, the providers that
      support IPv6, and the declared ports known to be taken. */
  datatype Env = Env(parse: NetParser, geo: GeoTable, supportsV6: string -> bool, held: set<nat>)

  const LAN_DIRECT_UDP_PORTS: set<nat> := {67, 68, 1900, 5353}

  const LAN_DIRECT_CIDRS: seq<RawNet> := [
    RawNet(4, 8, 0x0A00_0000), RawNet(4, 12, 0xAC10_0000), RawNet(4, 16, 0xC0A8_0000), RawNet(4, 16, 0xA9FE_0000),
    RawNet(4, 8, 0x7F00_0000), RawNet(4, 4, 0xE000_0000), RawNet(4, 32, 0xFFFF_FFFF),
    RawNet(6, 128, 1),
    RawNet(6, 10, 0xFE80_0000_0000_0000_0000_0000_0000_0000),
    RawNet(6, 7, 0xFC00_0000_0000_0000_0000_0000_0000_0000),
    RawNet(6, 8, 0xFF00_0000_0000_0000_0000_0000_0000_0000)]

  const ANY_V6 := RawNet(6, 0, 0)

  // ---- channels ----

  /** `_v4_only`: unparseable entries go too. */
  function V4Only(cidrs: seq<Cidr>): (out: seq<Cidr>)
    ensures forall i :: 0 <= i < |out| ==> out[i].V4? && out[i] in cidrs
  {
    if cidrs == [] then []
    else V4Only(cidrs[..|cidrs| - 1]) + (if cidrs[|cidrs| - 1].V4? then [cidrs[|cidrs| - 1]] else [])
  }

  predicate HasGlobalV6(cidrs: seq<Cidr>) {
    exists i :: 0 <= i < |cidrs| && cidrs[i].V6? && cidrs[i].isGlobal
  }

  /** `channel_ipv6` */
  predicate ChannelV6(env: Env, ref: Ref, ch: Channel) {
    env.supportsV6(ref.provider) && ch.wg.Wg? && HasGlobalV6(ch.wg.address)
  }

  /** `_endpoint`; `None` where the channel has no usable WireGuard config. */
  function EndpointOf(env: Env, ref: Ref, ch: Channel): Option<Endpoint> {
    if ch.wg.NoWg? || ch.wg.peer.None? then None
    else
      var peer := ch.wg.peer.value;
      var v6 := ChannelV6(env, ref, ch);
      var allowed := if v6 then peer.allowedIps else V4Only(peer.allowedIps);
      Some(Endpoint(ref, ch.wg.privateKey, if v6 then ch.wg.address else V4Only(ch.wg.address),
                    peer.(allowedIps := if allowed == [] then [V4("0.0.0.0/0")] else allowed)))
  }

  /** A channel that cannot carry IPv6 is never given any, and no peer is left without allowed addresses. */
  lemma {:induction false} EndpointNeverSmugglesV6(env: Env, ref: Ref, ch: Channel)
    requires EndpointOf(env, ref, ch).Some?
    ensures var e := EndpointOf(env, ref, ch).value;
            && e.peer.allowedIps != []
            && (!ChannelV6(env, ref, ch) ==>
                  && (forall i :: 0 <= i < |e.address| ==> e.address[i].V4?)
                  && (forall i :: 0 <= i < |e.peer.allowedIps| ==> e.peer.allowedIps[i].V4?))
  {
  }

  /** Everything assembled from the channels visited so far. */
  datatype Fleet = Fleet(inbounds: seq<Inbound>, endpoints: seq<Endpoint>, rules: seq<RouteRule>,
                         built: set<Ref>, v6: set<Ref>, failures: seq<Failure>)

  const NO_FLEET := Fleet([], [], [], {}, {}, [])

  /** A bare condition on the inbound. */
  function OnEntries(entries: set<Entry>, action: Action): RouteRule {
    RouteRule(entries, {}, false, [], None, false, action)
  }

  function AddToFleet(env: Env, f: Fleet, ref: Ref, ch: Channel): Fleet {
    if !ch.enabled then f
    else if ch.port in env.held then f.(failures := f.failures + [PortHeld(ref)])
    else
      match EndpointOf(env, ref, ch)
      case None => f.(failures := f.failures + [NoKeys(ref)])
      case Some(e) =>
        Fleet(f.inbounds + [Mixed(ChannelEntry(ref), ch.port)], f.endpoints + [e],
              f.rules + [OnEntries({ChannelEntry(ref)}, ToChannel(ref))],
              f.built + {ref}, if ChannelV6(env, ref, ch) then f.v6 + {ref} else f.v6, f.failures)
  }

  function FleetOf(env: Env, channels: map<Ref, Channel>, order: seq<Ref>): Fleet
    requires forall i :: 0 <= i < |order| ==> order[i] in channels
  {
    if order == [] then NO_FLEET
    else
      var last := order[|order| - 1];
      AddToFleet(env, FleetOf(env, channels, order[..|order| - 1]), last, channels[last])
  }

  /** A channel is in the build exactly when it is enabled, its port is free for it, and it has keys. */
  predicate Usable(env: Env, ref: Ref, ch: Channel) {
    ch.enabled && ch.port !in env.held && EndpointOf(env, ref, ch).Some?
  }

  lemma {:induction false} FleetIsUsable(env: Env, channels: map<Ref, Channel>, order: seq<Ref>, a: Ref)
    requires forall i :: 0 <= i < |order| ==> order[i] in channels
    ensures a in FleetOf(env, channels, order).built <==> a in order && Usable(env, a, channels[a])
    ensures a in FleetOf(env, channels, order).v6 <==>
              a in order && Usable(env, a, channels[a]) && ChannelV6(env, a, channels[a])
  {
    if order != [] {
      FleetIsUsable(env, channels, order[..|order| - 1], a);
      assert order == order[..|order| - 1] + [order[|order| - 1]];
    }
  }

  // ---- the shared rule table ----

  /** What `_router_config` works from. */
  datatype Table = Table(entries: set<Entry>, tun: bool, lanDirect: bool, killswitch: bool, built: set<Ref>,
                         v6: set<Ref>)

  predicate KnownType(kind: string) {
    kind == "domain_suffix" || kind == "ip_cidr" || IsGeo(kind) || kind == "all"
  }

  predicate Uncached(env: Env, m: Matcher) {
    IsGeo(m.kind) && env.geo(m.kind, m.value).None?
  }

  /** A rule's own condition: none for `all`. */
  function Conditional(t: Table, m: Matcher, v6Only: bool, action: Action): RouteRule {
    RouteRule(t.entries, {}, false, [], if m.kind == "all" then None else Some(m), v6Only, action)
  }

  /** The compiled form of one user rule: none, one, or a guard followed by the rule. */
  function CompileRule(env: Env, t: Table, r: Rule): seq<RouteRule> {
    if Uncached(env, r.matcher) then [OnEntries(t.entries, Reject)]
    else if !KnownType(r.matcher.kind) then []
    else
      match r.target
      case Direct => [Conditional(t, r.matcher, false, ToDirect)]
      case Block => [Conditional(t, r.matcher, false, Reject)]
      case Bare(_) => [Conditional(t, r.matcher, false, Reject)]
      case Via(ref) =>
        if ref !in t.built then [Conditional(t, r.matcher, false, Reject)]
        else (if t.v6 != {} && ref !in t.v6 && t.tun then [Conditional(t, r.matcher, true, Reject)] else [])
             + [Conditional(t, r.matcher, false, ToChannel(ref))]
  }

  function CompileRules(env: Env, t: Table, rules: seq<Rule>): seq<RouteRule> {
    if rules == [] then []
    else CompileRules(env, t, rules[..|rules| - 1]) + CompileRule(env, t, rules[|rules| - 1])
  }

  function LanPorts(t: Table): seq<RouteRule> {
    if t.lanDirect then [RouteRule(t.entries, LAN_DIRECT_UDP_PORTS, false, [], None, false, ToDirect)] else []
  }

  function DnsHijack(t: Table): seq<RouteRule> {
    if t.tun then [RouteRule({TunEntry}, {}, true, [], None, false, HijackDns)] else []
  }

  function LanCidrs(t: Table): seq<RouteRule> {
    if t.lanDirect then [RouteRule(t.entries, {}, false, LAN_DIRECT_CIDRS, None, false, ToDirect)] else []
  }

  function V6Block(on: bool): seq<RouteRule> {
    if on then [RouteRule({TunEntry}, {}, false, [ANY_V6], None, false, Reject)] else []
  }

  function Killswitch(t: Table): seq<RouteRule> {
    if t.killswitch then [OnEntries(t.entries, Reject)] else []
  }

  /** The rules `_router_config` appends, in order. */
  function TableRules(env: Env, t: Table, rules: seq<Rule>): seq<RouteRule> {
    if t.entries == {} then []
    else
      [OnEntries(t.entries, Sniff)] + LanPorts(t) + DnsHijack(t) + LanCidrs(t) + V6Block(t.tun && t.v6 == {})
      + CompileRules(env, t, rules) + V6Block(t.tun && t.v6 != {}) + Killswitch(t)
  }

  // ---- what a rule list does to a connection ----

  /** A connection: how it came in, and what sniffing and the destination say about it. */
  datatype Flow = Flow(entry: Entry, udp: bool, port: nat, dns: bool, ip: Option<Ip>, domain: Option<string>)
  {
    predicate V6() {
      ip.Some? && ip.value.version == 6
    }

    function Destination(): Routes.Destination {
      Routes.Destination(domain, if ip.Some? then [ip.value] else [])
    }
  }

  predicate InRaw(ip: Ip, net: RawNet) {
    net.prefixlen <= AddressBits(ip.version) && ip.version == net.version
    && BlockBase(ip.version, net.prefixlen, ip.value) == net.address
  }

  predicate InSome(f: Flow, nets: seq<RawNet>) {
    f.ip.Some? && exists i :: 0 <= i < |nets| && InRaw(f.ip.value, nets[i])
  }

  predicate Applies(env: Env, r: RouteRule, f: Flow) {
    && f.entry in r.inbound
    && (r.udpPorts != {} ==> f.udp && f.port in r.udpPorts)
    && (r.dnsOnly ==> f.dns)
    && (r.cidrs != [] ==> InSome(f, r.cidrs))
    && (r.matcher.Some? ==> MatchDestination(env.parse, env.geo, r.matcher.value, f.Destination()))
    && (r.v6Only ==> f.V6())
  }

  /** First match decides; sniffing only looks. */
  function Decide(env: Env, rules: seq<RouteRule>, f: Flow): Option<Action> {
    if rules == [] then None
    else if rules[0].action != Sniff && Applies(env, rules[0], f) then Some(rules[0].action)
    else Decide(env, rules[1..], f)
  }

  /** What happens to a connection: the first deciding rule, else `final: direct`. */
  function Verdict(env: Env, rules: seq<RouteRule>, f: Flow): Action {
    match Decide(env, rules, f)
    case Some(a) => a
    case None => ToDirect
  }

  lemma {:induction false} DecideConcat(env: Env, a: seq<RouteRule>, b: seq<RouteRule>, f: Flow)
    ensures Decide(env, a + b, f) == if Decide(env, a, f).Some? then Decide(env, a, f) else Decide(env, b, f)
  {
    if a == [] {
      assert a + b == b;
    } else {
      assert (a + b)[1..] == a[1..] + b;
      DecideConcat(env, a[1..], b, f);
    }
  }

  lemma {:induction false} DecideOne(env: Env, r: RouteRule, f: Flow)
    ensures Decide(env, [r], f) == if r.action != Sniff && Applies(env, r, f) then Some(r.action) else None
  {
  }

  // ---- what is intended ----

  /** What one user rule wants done with a connection that reaches it: nothing when it does not concern it. */
  function UserVerdict(env: Env, t: Table, r: Rule, f: Flow): Option<Action> {
    if Uncached(env, r.matcher) then Some(Reject)
    else if !MatchDestination(env.parse, env.geo, r.matcher, f.Destination()) then None
    else
      match r.target
      case Direct => Some(ToDirect)
      case Block => Some(Reject)
      case Bare(_) => Some(Reject)
      case Via(ref) =>
        if ref in t.built && (f.V6() && t.tun && t.v6 != {} ==> ref in t.v6) then Some(ToChannel(ref)) else Some(Reject)
  }

  function UserVerdicts(env: Env, t: Table, rules: seq<Rule>, f: Flow): Option<Action> {
    if rules == [] then None
    else
      var before := UserVerdicts(env, t, rules[..|rules| - 1], f);
      if before.Some? then before else UserVerdict(env, t, rules[|rules| - 1], f)
  }

  /** The intended order: LAN ports, DNS hijack, LAN addresses, IPv6 block, user rules, unmatched IPv6 block,
      kill-switch, direct. */
  function Intended(env: Env, t: Table, rules: seq<Rule>, f: Flow): Action {
    if t.lanDirect && f.udp && f.port in LAN_DIRECT_UDP_PORTS then ToDirect
    else if f.entry == TunEntry && f.dns then HijackDns
    else if t.lanDirect && InSome(f, LAN_DIRECT_CIDRS) then ToDirect
    else if f.entry == TunEntry && f.V6() && t.v6 == {} then Reject
    else
      match UserVerdicts(env, t, rules, f)
      case Some(a) => a
      case None =>
        if f.entry == TunEntry && f.V6() then Reject
        else if t.killswitch then Reject
        else ToDirect
  }

  lemma {:induction false} AnyV6IsV6(f: Flow)
    ensures InSome(f, [ANY_V6]) <==> f.V6()
  {
    if f.V6() {
      LowBitsFloor(6, f.ip.value.value);
      assert InRaw(f.ip.value, [ANY_V6][0]);
    }
  }

  lemma {:induction false} LowBitsFloor(version: nat, v: nat)
    requires v < Pow2(AddressBits(version))
    ensures BlockBase(version, 0, v) == 0
  {
    BlockBaseIsFloor(version, 0, v);
    SmallFloor(v, Pow2(AddressBits(version)));
  }

  lemma {:induction false} SmallFloor(v: nat, k: nat)
    requires v < k
    ensures v / k * k == 0
  {
  }

  lemma {:induction false} CompileRuleMeans(env: Env, t: Table, r: Rule, f: Flow)
    requires f.entry in t.entries
    ensures Decide(env, CompileRule(env, t, r), f) == UserVerdict(env, t, r, f)
  {
    DecideOne(env, OnEntries(t.entries, Reject), f);
    forall guard: bool, action: Action
      ensures Decide(env, [Conditional(t, r.matcher, guard, action)], f)
              == if action != Sniff && Concerns(env, t, r.matcher, guard, f) then Some(action) else None
    {
      ConditionalDecides(env, t, r.matcher, guard, action, f);
    }
    if r.target.Via? {
      DecideConcat(env, [Conditional(t, r.matcher, true, Reject)],
                   [Conditional(t, r.matcher, false, ToChannel(r.target.ref))], f);
    }
  }

  predicate Concerns(env: Env, t: Table, m: Matcher, v6Only: bool, f: Flow) {
    MatchDestination(env.parse, env.geo, m, f.Destination()) && (v6Only ==> f.V6())
  }

  lemma {:induction false} ConditionalDecides(env: Env, t: Table, m: Matcher, v6Only: bool, action: Action, f: Flow)
    requires f.entry in t.entries
    ensures Decide(env, [Conditional(t, m, v6Only, action)], f)
            == if action != Sniff && Concerns(env, t, m, v6Only, f) then Some(action) else None
  {
    DecideOne(env, Conditional(t, m, v6Only, action), f);
  }

  lemma {:induction false} CompileRulesMean(env: Env, t: Table, rules: seq<Rule>, f: Flow)
    requires f.entry in t.entries
    ensures Decide(env, CompileRules(env, t, rules), f) == UserVerdicts(env, t, rules, f)
  {
    if rules != [] {
      CompileRulesMean(env, t, rules[..|rules| - 1], f);
      CompileRuleMeans(env, t, rules[|rules| - 1], f);
      DecideConcat(env, CompileRules(env, t, rules[..|rules| - 1]), CompileRule(env, t, rules[|rules| - 1]), f);
    }
  }

  /** The built-in blocks, one by one. */
  lemma {:induction false} BlocksMean(env: Env, t: Table, f: Flow)
    requires f.entry in t.entries && (f.entry == TunEntry ==> t.tun)
    ensures Decide(env, LanPorts(t), f) == if t.lanDirect && f.udp && f.port in LAN_DIRECT_UDP_PORTS then Some(ToDirect)
                                             else None
    ensures Decide(env, DnsHijack(t), f) == if f.entry == TunEntry && f.dns then Some(HijackDns) else None
    ensures Decide(env, LanCidrs(t), f) == if t.lanDirect && InSome(f, LAN_DIRECT_CIDRS) then Some(ToDirect) else None
    ensures Decide(env, Killswitch(t), f) == if t.killswitch then Some(Reject) else None
    ensures forall on :: Decide(env, V6Block(on), f) == if on && f.entry == TunEntry && f.V6() then Some(Reject)
                                                          else None
  {
    AnyV6IsV6(f);
  }

  /** First-match evaluation of the compiled table is the intended order, for every connection by either door. */
  lemma {:induction false} TableMeansIntended(env: Env, t: Table, rules: seq<Rule>, f: Flow)
    requires f.entry in t.entries && (f.entry == TunEntry ==> t.tun)
    ensures Verdict(env, TableRules(env, t, rules), f) == Intended(env, t, rules, f)
  {
    BlocksMean(env, t, f);
    CompileRulesMean(env, t, rules, f);
    var sniff, ports, dns, lan := [OnEntries(t.entries, Sniff)], LanPorts(t), DnsHijack(t), LanCidrs(t);
    var v6a, user, v6b := V6Block(t.tun && t.v6 == {}), CompileRules(env, t, rules), V6Block(t.tun && t.v6 != {});
    DecideOne(env, sniff[0], f);
    DecideConcat(env, sniff, ports, f);
    DecideConcat(env, sniff + ports, dns, f);
    DecideConcat(env, sniff + ports + dns, lan, f);
    DecideConcat(env, sniff + ports + dns + lan, v6a, f);
    DecideConcat(env, sniff + ports + dns + lan + v6a, user, f);
    DecideConcat(env, sniff + ports + dns + lan + v6a + user, v6b, f);
    DecideConcat(env, sniff + ports + dns + lan + v6a + user + v6b, Killswitch(t), f);
  }

  // ---- the whole config ----

  function RouterPortUp(env: Env, router: Router): nat {
    if router.port != 0 && router.port in env.held then 0 else router.port
  }

  function Doors(env: Env, router: Router): set<Entry> {
    (if RouterPortUp(env, router) != 0 then {RouterEntry} else {}) + (if router.tun then {TunEntry} else {})
  }

  function TableOf(env: Env, router: Router, fleet: Fleet): Table {
    Table(Doors(env, router), router.tun, router.lanDirect, router.killswitch, fleet.built, fleet.v6)
  }

  function DoorInbounds(env: Env, router: Router): seq<Inbound> {
    (if RouterPortUp(env, router) != 0 then [Mixed(RouterEntry, router.port)] else [])
    + (if router.tun then [TunDevice] else [])
  }

  function RuleFailures(env: Env, t: Table, r: Rule): seq<Failure> {
    if Uncached(env, r.matcher) then [NotCached(r.id)]
    else if !KnownType(r.matcher.kind) then [UnknownType(r.id)]
    else if r.target.Bare? || (r.target.Via? && r.target.ref !in t.built) then [Unusable(r.id)]
    else []
  }

  function TableFailures(env: Env, t: Table, rules: seq<Rule>): seq<Failure> {
    if rules == [] then []
    else TableFailures(env, t, rules[..|rules| - 1]) + RuleFailures(env, t, rules[|rules| - 1])
  }

  /** The verified geo categories the compiled rules name. */
  function GeoSets(env: Env, rules: seq<Rule>): set<Matcher> {
    if rules == [] then {}
    else
      var m := rules[|rules| - 1].matcher;
      GeoSets(env, rules[..|rules| - 1]) + (if IsGeo(m.kind) && !Uncached(env, m) then {m} else {})
  }

  function ConfigOf(env: Env, s: State, order: seq<Ref>): Config
    requires forall i :: 0 <= i < |order| ==> order[i] in s.channels
  {
    var fleet := FleetOf(env, s.channels, order);
    var t := TableOf(env, s.router, fleet);
    Config(fleet.inbounds + DoorInbounds(env, s.router), fleet.endpoints, fleet.rules + TableRules(env, t, s.rules),
           if t.entries == {} then {} else GeoSets(env, s.rules),
           if s.router.tun then Some(if fleet.v6 != {} then PreferIpv4 else Ipv4Only) else None)
  }

  function FailuresOf(env: Env, s: State, order: seq<Ref>): seq<Failure>
    requires forall i :: 0 <= i < |order| ==> order[i] in s.channels
  {
    var fleet := FleetOf(env, s.channels, order);
    var t := TableOf(env, s.router, fleet);
    fleet.failures
    + (if s.router.port != 0 && s.router.port in env.held then [RouterPortHeld] else [])
    + (if t.entries == {} then [] else TableFailures(env, t, s.rules))
  }

  // ---- what the build contains, told over the channels' own fields ----

  /** How many of the first `n` entries are IPv4. */
  function CountV4(cidrs: seq<Cidr>, n: nat): nat
    requires n <= |cidrs|
  {
    if n == 0 then 0 else CountV4(cidrs, n - 1) + (if cidrs[n - 1].V4? then 1 else 0)
  }

  /** `out` is the IPv4 entries in their order: each stands behind as many as precede it, and there is nothing else. */
  ghost predicate IsV4Part(out: seq<Cidr>, cidrs: seq<Cidr>) {
    && |out| == CountV4(cidrs, |cidrs|)
    && forall i :: 0 <= i < |cidrs| && cidrs[i].V4? ==>
         CountV4(cidrs, i) < |out| && out[CountV4(cidrs, i)] == cidrs[i]
  }

  lemma {:induction false} CountInFront(cidrs: seq<Cidr>, m: nat, n: nat)
    requires m <= n <= |cidrs|
    ensures CountV4(cidrs[..n], m) == CountV4(cidrs, m)
  {
    if m > 0 {
      CountInFront(cidrs, m - 1, n);
    }
  }

  lemma {:induction false} V4PartGrows(out: seq<Cidr>, cidrs: seq<Cidr>, n: nat)
    requires n + 1 == |cidrs| && IsV4Part(out, cidrs[..n])
    ensures IsV4Part(out + (if cidrs[n].V4? then [cidrs[n]] else []), cidrs)
  {
    CountInFront(cidrs, n, n);
    forall i | 0 <= i < n && cidrs[i].V4? ensures CountV4(cidrs, i) < |out| && out[CountV4(cidrs, i)] == cidrs[i] {
      CountInFront(cidrs, i, n);
      assert cidrs[..n][i] == cidrs[i];
    }
  }

  lemma {:induction false} V4OnlyIsV4Part(cidrs: seq<Cidr>)
    ensures IsV4Part(V4Only(cidrs), cidrs)
  {
    if cidrs != [] {
      V4OnlyIsV4Part(cidrs[..|cidrs| - 1]);
      V4PartGrows(V4Only(cidrs[..|cidrs| - 1]), cidrs, |cidrs| - 1);
    }
  }

  lemma {:induction false} NoneCounted(cidrs: seq<Cidr>, n: nat)
    requires n <= |cidrs|
    ensures CountV4(cidrs, n) == 0 <==> forall i :: 0 <= i < n ==> !cidrs[i].V4?
  {
    if n > 0 {
      NoneCounted(cidrs, n - 1);
    }
  }

  /** The provider supports IPv6 and the channel's own interface has a global IPv6 address. */
  ghost predicate CarriesV6(env: Env, ref: Ref, ch: Channel) {
    && env.supportsV6(ref.provider) && ch.wg.Wg?
    && exists i :: 0 <= i < |ch.wg.address| && ch.wg.address[i].V6? && ch.wg.address[i].isGlobal
  }

  predicate HasKeys(ch: Channel) {
    ch.wg.Wg? && ch.wg.peer.Some?
  }

  /** What the tunnel of a channel is made of. */
  ghost predicate Serves(env: Env, ref: Ref, ch: Channel, e: Endpoint)
    requires HasKeys(ch)
  {
    var peer := ch.wg.peer.value;
    && e.ref == ref && e.privateKey == ch.wg.privateKey
    && e.peer.host == peer.host && e.peer.port == peer.port && e.peer.publicKey == peer.publicKey
    && e.peer.keepalive == peer.keepalive && e.peer.preshared == peer.preshared
    && (if CarriesV6(env, ref, ch) then
          e.address == ch.wg.address
          && (if peer.allowedIps == [] then e.peer.allowedIps == [V4("0.0.0.0/0")]
              else e.peer.allowedIps == peer.allowedIps)
        else
          IsV4Part(e.address, ch.wg.address)
          && (if forall i :: 0 <= i < |peer.allowedIps| ==> !peer.allowedIps[i].V4?
              then e.peer.allowedIps == [V4("0.0.0.0/0")]
              else IsV4Part(e.peer.allowedIps, peer.allowedIps)))
  }

  lemma {:induction false} EndpointServes(env: Env, ref: Ref, ch: Channel)
    ensures EndpointOf(env, ref, ch).Some? <==> HasKeys(ch)
    ensures HasKeys(ch) ==> Serves(env, ref, ch, EndpointOf(env, ref, ch).value)
  {
    if HasKeys(ch) {
      var peer := ch.wg.peer.value;
      V4OnlyIsV4Part(ch.wg.address);
      V4OnlyIsV4Part(peer.allowedIps);
      NoneCounted(peer.allowedIps, |peer.allowedIps|);
    }
  }

  /** Enabled, on a port nobody else holds, with keys: such a channel is in the build. */
  predicate Buildable(env: Env, ch: Channel) {
    ch.enabled && ch.port !in env.held && HasKeys(ch)
  }

  /** The build has, for each buildable channel, its tunnel and the mixed inbound on its own port, and nothing else for
      any channel. */
  ghost predicate BuildsChannels(env: Env, channels: map<Ref, Channel>, order: seq<Ref>, inbounds: seq<Inbound>,
                                 endpoints: seq<Endpoint>) {
    && (forall e <- endpoints :: e.ref in order && e.ref in channels && Buildable(env, channels[e.ref])
                                 && Serves(env, e.ref, channels[e.ref], e))
    && (forall a <- order :: a in channels && Buildable(env, channels[a]) ==>
          (exists e <- endpoints :: e.ref == a) && Mixed(ChannelEntry(a), channels[a].port) in inbounds)
    && (forall i <- inbounds :: i.Mixed? && i.entry.ChannelEntry? ==>
          && i.entry.ref in order && i.entry.ref in channels
          && Buildable(env, channels[i.entry.ref]) && i.port == channels[i.entry.ref].port)
  }

  lemma {:induction false} FleetBuilds(env: Env, channels: map<Ref, Channel>, order: seq<Ref>)
    requires forall i :: 0 <= i < |order| ==> order[i] in channels
    ensures var f := FleetOf(env, channels, order);
            BuildsChannels(env, channels, order, f.inbounds, f.endpoints)
            && forall i <- f.inbounds :: i.Mixed? && i.entry.ChannelEntry?
  {
    if order != [] {
      var front, a := order[..|order| - 1], order[|order| - 1];
      FleetBuilds(env, channels, front);
      EndpointServes(env, a, channels[a]);
      FleetGrows(env, channels, front, FleetOf(env, channels, front), a);
      assert order == front + [a];
    }
  }

  lemma {:induction false} FleetGrows(env: Env, channels: map<Ref, Channel>, order: seq<Ref>, f: Fleet, a: Ref)
    requires a in channels && BuildsChannels(env, channels, order, f.inbounds, f.endpoints)
    requires EndpointOf(env, a, channels[a]).Some? <==> HasKeys(channels[a])
    requires HasKeys(channels[a]) ==> Serves(env, a, channels[a], EndpointOf(env, a, channels[a]).value)
    ensures var g := AddToFleet(env, f, a, channels[a]);
            BuildsChannels(env, channels, order + [a], g.inbounds, g.endpoints)
  {
    var g := AddToFleet(env, f, a, channels[a]);
    if Buildable(env, channels[a]) {
      var e := EndpointOf(env, a, channels[a]).value;
      assert e in g.endpoints;
    }
    forall b | b in order + [a] && b in channels && Buildable(env, channels[b])
      ensures (exists e <- g.endpoints :: e.ref == b) && Mixed(ChannelEntry(b), channels[b].port) in g.inbounds
    {
      if b != a {
        var e :| e in f.endpoints && e.ref == b;
        assert e in g.endpoints;
      }
    }
  }

  /** No channel has two tunnels. */
  lemma {:induction false} OneTunnelEach(env: Env, channels: map<Ref, Channel>, order: seq<Ref>)
    requires forall i :: 0 <= i < |order| ==> order[i] in channels
    requires forall i, j :: 0 <= i < j < |order| ==> order[i] != order[j]
    ensures var es := FleetOf(env, channels, order).endpoints;
            forall i, j :: 0 <= i < j < |es| ==> es[i].ref != es[j].ref
  {
    if order != [] {
      var front, a := order[..|order| - 1], order[|order| - 1];
      OneTunnelEach(env, channels, front);
      FleetBuilds(env, channels, front);
      assert a !in front;
    }
  }

  /** The whole config: the channels, the open doors, and how names are resolved. */
  ghost predicate ConfigHolds(env: Env, s: State, order: seq<Ref>, config: Config) {
    && BuildsChannels(env, s.channels, order, config.inbounds, config.endpoints)
    && (forall p :: Mixed(RouterEntry, p) in config.inbounds <==> p == s.router.port && p != 0 && p !in env.held)
    && (TunDevice in config.inbounds <==> s.router.tun)
    && (config.dns.Some? <==> s.router.tun)
    && (config.dns == Some(PreferIpv4)
        <==> s.router.tun && exists a <- order :: a in s.channels && Buildable(env, s.channels[a])
                               && CarriesV6(env, a, s.channels[a]))
    && (forall m :: m in config.geoSets <==>
          && (s.router.tun || (s.router.port != 0 && s.router.port !in env.held))
          && IsGeo(m.kind) && env.geo(m.kind, m.value).Some?
          && exists i :: 0 <= i < |s.rules| && s.rules[i].matcher == m)
  }

  lemma {:induction false} GeoSetsMean(env: Env, rules: seq<Rule>, m: Matcher)
    ensures m in GeoSets(env, rules)
            <==> && IsGeo(m.kind) && env.geo(m.kind, m.value).Some?
                 && exists i :: 0 <= i < |rules| && rules[i].matcher == m
  {
    if rules != [] {
      GeoSetsMean(env, rules[..|rules| - 1], m);
    }
  }

  lemma {:induction false} SomeCarriesV6(env: Env, s: State, order: seq<Ref>)
    requires forall i :: 0 <= i < |order| ==> order[i] in s.channels
    ensures FleetOf(env, s.channels, order).v6 != {}
            <==> exists a <- order :: a in s.channels && Buildable(env, s.channels[a])
                   && CarriesV6(env, a, s.channels[a])
  {
    forall a ensures a in FleetOf(env, s.channels, order).v6
                     <==> a in order && Buildable(env, s.channels[a]) && CarriesV6(env, a, s.channels[a]) {
      FleetIsUsable(env, s.channels, order, a);
    }
  }

  /** The config holds what it should, for every state and every environment. */
  lemma {:induction false} ConfigHoldsAll(env: Env, s: State, order: seq<Ref>)
    requires forall i :: 0 <= i < |order| ==> order[i] in s.channels
    ensures ConfigHolds(env, s, order, ConfigOf(env, s, order))
  {
    var fleet := FleetOf(env, s.channels, order);
    FleetBuilds(env, s.channels, order);
    SomeCarriesV6(env, s, order);
    forall m ensures m in GeoSets(env, s.rules)
                     <==> && IsGeo(m.kind) && env.geo(m.kind, m.value).Some?
                          && exists i :: 0 <= i < |s.rules| && s.rules[i].matcher == m {
      GeoSetsMean(env, s.rules, m);
    }
    DoorsAdded(env, s, order, fleet.inbounds, fleet.endpoints);
  }

  lemma {:induction false} DoorsAdded(env: Env, s: State, order: seq<Ref>, inbounds: seq<Inbound>,
                                      endpoints: seq<Endpoint>)
    requires BuildsChannels(env, s.channels, order, inbounds, endpoints)
    requires forall i <- inbounds :: i.Mixed? && i.entry.ChannelEntry?
    ensures var all := inbounds + DoorInbounds(env, s.router);
            && BuildsChannels(env, s.channels, order, all, endpoints)
            && (forall p :: Mixed(RouterEntry, p) in all <==> p == s.router.port && p != 0 && p !in env.held)
            && (TunDevice in all <==> s.router.tun)
  {
  }

  // ---- the loops ----

  /** The channel loop of `_build_config`. */
  method AssembleChannels(env: Env, channels: map<Ref, Channel>, order: seq<Ref>) returns (fleet: Fleet)
    requires forall i :: 0 <= i < |order| ==> order[i] in channels
    ensures fleet == FleetOf(env, channels, order)
  {
    var inbounds, endpoints, rules, failures := [], [], [], [];
    var built, v6 := {}, {};
    for i := 0 to |order|
      invariant Fleet(inbounds, endpoints, rules, built, v6, failures) == FleetOf(env, channels, order[..i])
    {
      assert order[..i + 1][..i] == order[..i];
      var ref := order[i];
      var ch := channels[ref];
      if !ch.enabled {
        continue;
      }
      if ch.port in env.held {
        failures := failures + [PortHeld(ref)];
        continue;
      }
      var endpoint := EndpointOf(env, ref, ch);
      if endpoint.None? {
        failures := failures + [NoKeys(ref)];
        continue;
      }
      inbounds := inbounds + [Mixed(ChannelEntry(ref), ch.port)];
      endpoints := endpoints + [endpoint.value];
      rules := rules + [OnEntries({ChannelEntry(ref)}, ToChannel(ref))];
      built := built + {ref};
      if ChannelV6(env, ref, ch) {
        v6 := v6 + {ref};
      }
    }
    assert order[..|order|] == order;
    fleet := Fleet(inbounds, endpoints, rules, built, v6, failures);
  }

  /** One pass of the rule loop of `_router_config`. */
  method CompileOne(env: Env, t: Table, r: Rule)
      returns (rules: seq<RouteRule>, failures: seq<Failure>, geo: set<Matcher>)
    ensures rules == CompileRule(env, t, r) && failures == RuleFailures(env, t, r)
    ensures geo == if IsGeo(r.matcher.kind) && !Uncached(env, r.matcher) then {r.matcher} else {}
  {
    var compiled := OnEntries(t.entries, Reject);
    rules, failures, geo := [], [], {};
    if r.matcher.kind == "domain_suffix" || r.matcher.kind == "ip_cidr" {
      compiled := compiled.(matcher := Some(r.matcher));
    } else if IsGeo(r.matcher.kind) {
      if env.geo(r.matcher.kind, r.matcher.value).None? {
        return [compiled], [NotCached(r.id)], {};
      }
      geo := {r.matcher};
      compiled := compiled.(matcher := Some(r.matcher));
    } else if r.matcher.kind != "all" {
      return [], [UnknownType(r.id)], {};
    }
    assert compiled == Conditional(t, r.matcher, false, Reject);
    match r.target {
      case Direct =>
        compiled := compiled.(action := ToDirect);
      case Block =>
      case Bare(_) =>
        failures := [Unusable(r.id)];
      case Via(ref) =>
        if ref !in t.built {
          return [compiled], [Unusable(r.id)], geo;
        }
        if t.v6 != {} && ref !in t.v6 && t.tun {
          rules := rules + [compiled.(v6Only := true)];
        }
        compiled := compiled.(action := ToChannel(ref));
    }
    rules := rules + [compiled];
  }

  method CompileTable(env: Env, t: Table, stored: seq<Rule>)
      returns (rules: seq<RouteRule>, failures: seq<Failure>, geo: set<Matcher>)
    ensures rules == CompileRules(env, t, stored) && failures == TableFailures(env, t, stored)
            && geo == GeoSets(env, stored)
  {
    rules, failures, geo := [], [], {};
    for i := 0 to |stored|
      invariant rules == CompileRules(env, t, stored[..i]) && failures == TableFailures(env, t, stored[..i])
      invariant geo == GeoSets(env, stored[..i])
    {
      assert stored[..i + 1][..i] == stored[..i];
      var more, failed, named := CompileOne(env, t, stored[i]);
      rules, failures, geo := rules + more, failures + failed, geo + named;
    }
    assert stored[..|stored|] == stored;
  }

  /** The rules of `_router_config`, appended in order. */
  method RouterRules(env: Env, t: Table, stored: seq<Rule>)
      returns (rules: seq<RouteRule>, failures: seq<Failure>, geo: set<Matcher>)
    requires t.entries != {}
    ensures rules == TableRules(env, t, stored) && failures == TableFailures(env, t, stored)
            && geo == GeoSets(env, stored)
  {
    rules := [OnEntries(t.entries, Sniff)];
    if t.lanDirect {
      rules := rules + [RouteRule(t.entries, LAN_DIRECT_UDP_PORTS, false, [], None, false, ToDirect)];
    }
    if t.tun {
      rules := rules + [RouteRule({TunEntry}, {}, true, [], None, false, HijackDns)];
    }
    if t.lanDirect {
      rules := rules + [RouteRule(t.entries, {}, false, LAN_DIRECT_CIDRS, None, false, ToDirect)];
    }
    if t.tun && t.v6 == {} {
      rules := rules + [RouteRule({TunEntry}, {}, false, [ANY_V6], None, false, Reject)];
    }
    assert rules == [OnEntries(t.entries, Sniff)] + LanPorts(t) + DnsHijack(t) + LanCidrs(t)
           + V6Block(t.tun && t.v6 == {});
    var compiled;
    compiled, failures, geo := CompileTable(env, t, stored);
    rules := rules + compiled;
    if t.tun && t.v6 != {} {
      rules := rules + [RouteRule({TunEntry}, {}, false, [ANY_V6], None, false, Reject)];
    }
    if t.killswitch {
      rules := rules + [OnEntries(t.entries, Reject)];
    }
  }

  /** The shared doors that are open, and the router's port when it is not. */
  method OpenDoors(env: Env, router: Router) returns (inbounds: seq<Inbound>, failures: seq<Failure>)
    ensures inbounds == DoorInbounds(env, router)
    ensures failures == if router.port != 0 && router.port in env.held then [RouterPortHeld] else []
  {
    inbounds, failures := [], [];
    var port := router.port;
    if port != 0 && port in env.held {
      failures := [RouterPortHeld];
      port := 0;
    }
    if port != 0 {
      inbounds := inbounds + [Mixed(RouterEntry, port)];
    }
    if router.tun {
      inbounds := inbounds + [TunDevice];
    }
  }

  /** `_build_config` */
  method BuildConfig(env: Env, s: State, order: seq<Ref>) returns (config: Config, failures: seq<Failure>)
    requires forall i :: 0 <= i < |order| ==> order[i] in s.channels
    ensures config == ConfigOf(env, s, order) && failures == FailuresOf(env, s, order)
    ensures ConfigHolds(env, s, order, config)
    ensures (forall i, j :: 0 <= i < j < |order| ==> order[i] != order[j]) ==>
              forall i, j :: 0 <= i < j < |config.endpoints| ==> config.endpoints[i].ref != config.endpoints[j].ref
  {
    if forall i, j :: 0 <= i < j < |order| ==> order[i] != order[j] {
      OneTunnelEach(env, s.channels, order);
    }
    ConfigHoldsAll(env, s, order);
    var fleet := AssembleChannels(env, s.channels, order);
    var doors, closed := OpenDoors(env, s.router);
    var t := TableOf(env, s.router, fleet);
    var rules: seq<RouteRule> := [];
    var failed: seq<Failure> := [];
    var geo: set<Matcher> := {};
    if t.entries != {} {
      rules, failed, geo := RouterRules(env, t, s.rules);
    }
    var dns := if s.router.tun then Some(if fleet.v6 != {} then PreferIpv4 else Ipv4Only) else None;
    config := Config(fleet.inbounds + doors, fleet.endpoints, fleet.rules + rules, geo, dns);
    failures := fleet.failures + closed + failed;
  }
}
