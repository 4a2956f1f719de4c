/** The material `config_signature` hashes, and why the reconcile trigger misses nothing the compiler reads. */
module Signature {
  import opened Common
  import opened Routes
  import opened State
  import opened Setup
  import opened Ports
  import opened Operations
  import opened RouteCompiler

  /** A recorded kind of geo data: the commit and, per category, the digest of its file. */
  datatype GeoRecord = GeoRecord(commit: string, files: map<string, string>)

  datatype Data = Data(state: State, geo: map<string, GeoRecord>)

  // ---- the material ----

  datatype ChannelPart = ChannelPart(port: nat, wg: Wg, enabled: bool)
  datatype RulePart = RulePart(id: Id, matcher: Matcher, target: Target)

  /** What one top-level key of the hashed mapping holds. */
  datatype Part =
    | ChannelsPart(channels: map<string, ChannelPart>)
    | RouterPart(port: nat, killswitch: bool, lanDirect: bool, tun: bool, rules: seq<RulePart>)
    | GeoPart(records: map<string, GeoRecord>)

  function RuleParts(rules: seq<Rule>): (parts: seq<RulePart>)
    ensures |parts| == |rules|
    ensures forall i :: 0 <= i < |rules| ==> parts[i] == RulePart(rules[i].id, rules[i].matcher, rules[i].target)
  {
    if rules == [] then [] else RuleParts(rules[..|rules| - 1])
                                + [RulePart(rules[|rules| - 1].id, rules[|rules| - 1].matcher,
                                            rules[|rules| - 1].target)]
  }

  function PartOf(ch: Channel): ChannelPart {
    ChannelPart(ch.port, ch.wg, ch.enabled)
  }

  function ProviderPart(channels: map<Ref, Channel>, provider: string): map<string, ChannelPart> {
    map a | a in channels && a.provider == provider :: a.cid := PartOf(channels[a])
  }

  /** An empty provider produces no inbounds, so it is left out. */
  function ProviderParts(channels: map<Ref, Channel>): map<string, Part> {
    map p | p in (set a | a in channels :: a.provider) :: ChannelsPart(ProviderPart(channels, p))
  }

  predicate RouterMatters(s: State) {
    s.router.port != 0 || s.rules != [] || s.router.killswitch || s.router.tun
  }

  function RouterPartOf(s: State): Part {
    RouterPart(s.router.port, s.router.killswitch, s.router.lanDirect, s.router.tun, RuleParts(s.rules))
  }

  /** Kinds without files are left out. */
  function GeoMaterial(geo: map<string, GeoRecord>): map<string, GeoRecord> {
    map k | k in geo && geo[k].files != map[] :: geo[k]
  }

  /** The mapping whose canonical JSON is hashed; later keys overwrite earlier ones. */
  function Material(d: Data): map<string, Part> {
    var providers := ProviderParts(d.state.channels);
    var routed := if RouterMatters(d.state) then providers["_router" := RouterPartOf(d.state)] else providers;
    if GeoMaterial(d.geo) != map[] then routed["_geodata" := GeoPart(GeoMaterial(d.geo))] else routed
  }

  /** What no config depends on moves nothing: LAN-direct while there is no shared door, rule or kill-switch, and geo
      records without files. */
  lemma {:induction false} IrrelevantKeepsMaterial(d: Data, lanDirect: bool, kind: string, record: GeoRecord)
    ensures d.state.router.port == 0 && d.state.rules == [] && !d.state.router.killswitch && !d.state.router.tun ==>
              Material(d.(state := d.state.(router := d.state.router.(lanDirect := lanDirect)))) == Material(d)
    ensures record.files == map[] && (kind in d.geo ==> d.geo[kind].files == map[]) ==>
              Material(d.(geo := d.geo[kind := record])) == Material(d)
  {
    if record.files == map[] && (kind in d.geo ==> d.geo[kind].files == map[]) {
      assert GeoMaterial(d.geo[kind := record]) == GeoMaterial(d.geo);
    }
  }

  // ---- what the compiler reads ----

  /** The verified cache: content under a kind, a name and a digest, when the file on disk has that digest. */
  type Disk = (string, string, string) -> Option<GeoSet>

  function CachedGeo(disk: Disk, geo: map<string, GeoRecord>): GeoTable {
    (kind: string, name: string) =>
      if kind in geo && name in geo[kind].files then disk(kind, name, geo[kind].files[name]) else None
  }

  function EnvOf(env: Env, disk: Disk, d: Data): Env {
    env.(geo := CachedGeo(disk, d.geo))
  }

  /** The digest, hence the file path, under which the config names a geo category. */
  function GeoPath(geo: map<string, GeoRecord>, m: Matcher): Option<string> {
    if m.kind in geo && m.value in geo[m.kind].files then Some(geo[m.kind].files[m.value]) else None
  }

  ghost predicate SameChannels(a: map<Ref, Channel>, b: map<Ref, Channel>) {
    && a.Keys == b.Keys
    && forall r <- a.Keys :: PartOf(a[r]) == PartOf(b[r])
  }

  ghost predicate SameGeo(a: Env, b: Env) {
    && a.supportsV6 == b.supportsV6 && a.held == b.held
    && forall k, n :: a.geo(k, n) == b.geo(k, n)
  }

  lemma {:induction false} SameFleet(a: Env, b: Env, c1: map<Ref, Channel>, c2: map<Ref, Channel>, order: seq<Ref>)
    requires SameGeo(a, b) && SameChannels(c1, c2) && forall i :: 0 <= i < |order| ==> order[i] in c1
    ensures FleetOf(a, c1, order) == FleetOf(b, c2, order)
  {
    if order != [] {
      SameFleet(a, b, c1, c2, order[..|order| - 1]);
      assert PartOf(c1[order[|order| - 1]]) == PartOf(c2[order[|order| - 1]]);
    }
  }

  lemma {:induction false} SameRule(a: Env, b: Env, t: Table, x: Rule, y: Rule)
    requires SameGeo(a, b) && x.id == y.id && x.matcher == y.matcher && x.target == y.target
    ensures CompileRule(a, t, x) == CompileRule(b, t, y) && RuleFailures(a, t, x) == RuleFailures(b, t, y)
    ensures Uncached(a, x.matcher) == Uncached(b, y.matcher)
  {
  }

  lemma {:induction false} SameTable(a: Env, b: Env, t: Table, r1: seq<Rule>, r2: seq<Rule>)
    requires SameGeo(a, b) && RuleParts(r1) == RuleParts(r2)
    ensures CompileRules(a, t, r1) == CompileRules(b, t, r2)
    ensures TableFailures(a, t, r1) == TableFailures(b, t, r2)
    ensures GeoSets(a, r1) == GeoSets(b, r2)
  {
    assert |r1| == |RuleParts(r1)| == |RuleParts(r2)| == |r2|;
    if r1 != [] {
      var f1, f2 := r1[..|r1| - 1], r2[..|r2| - 1];
      assert RuleParts(r1)[|r1| - 1] == RuleParts(r2)[|r2| - 1];
      assert RuleParts(f1) == RuleParts(r1)[..|r1| - 1] && RuleParts(f2) == RuleParts(r2)[..|r2| - 1];
      SameTable(a, b, t, f1, f2);
      SameRule(a, b, t, r1[|r1| - 1], r2[|r2| - 1]);
    }
  }

  /** Provider keys are bare lowercase words: neither reserved key is one. */
  ghost predicate NoReservedProvider(s: State) {
    forall a <- s.channels.Keys :: a.provider != "_router" && a.provider != "_geodata"
  }

  lemma {:induction false} MaterialOfProvider(d: Data, a: Ref)
    requires NoReservedProvider(d.state) && a.provider != "_router" && a.provider != "_geodata"
    ensures (exists b :: b in d.state.channels && b.provider == a.provider) <==> a.provider in Material(d)
    ensures a.provider in Material(d)
            ==> Material(d)[a.provider] == ChannelsPart(ProviderPart(d.state.channels, a.provider))
  {
  }

  lemma {:induction false} ProviderPartAt(channels: map<Ref, Channel>, a: Ref)
    ensures a.cid in ProviderPart(channels, a.provider) <==> a in channels
    ensures a in channels ==> ProviderPart(channels, a.provider)[a.cid] == PartOf(channels[a])
  {
    forall b | b in channels && b.provider == a.provider && b.cid == a.cid ensures b == a {}
  }

  lemma {:induction false} MaterialGivesChannel(d1: Data, d2: Data, a: Ref)
    requires NoReservedProvider(d1.state) && NoReservedProvider(d2.state) && Material(d1) == Material(d2)
    requires a in d1.state.channels
    ensures a in d2.state.channels && PartOf(d1.state.channels[a]) == PartOf(d2.state.channels[a])
  {
    MaterialOfProvider(d1, a);
    MaterialOfProvider(d2, a);
    ProviderPartAt(d1.state.channels, a);
    ProviderPartAt(d2.state.channels, a);
  }

  lemma {:induction false} MaterialGivesRouter(d: Data)
    requires NoReservedProvider(d.state)
    ensures "_router" in Material(d) <==> RouterMatters(d.state)
    ensures RouterMatters(d.state) ==> Material(d)["_router"] == RouterPartOf(d.state)
    ensures "_geodata" in Material(d) <==> GeoMaterial(d.geo) != map[]
    ensures GeoMaterial(d.geo) != map[] ==> Material(d)["_geodata"] == GeoPart(GeoMaterial(d.geo))
  {
  }

  lemma {:induction false} SameGeoMaterial(g1: map<string, GeoRecord>, g2: map<string, GeoRecord>, disk: Disk,
                                           m: Matcher)
    requires GeoMaterial(g1) == GeoMaterial(g2)
    ensures GeoPath(g1, m) == GeoPath(g2, m)
    ensures CachedGeo(disk, g1)(m.kind, m.value) == CachedGeo(disk, g2)(m.kind, m.value)
  {
    assert m.kind in GeoMaterial(g1) <==> m.kind in GeoMaterial(g2);
    assert m.kind in GeoMaterial(g1) ==> GeoMaterial(g1)[m.kind] == GeoMaterial(g2)[m.kind];
  }

  /** Equal material, equal config: the same inbounds, endpoints, rules, geo files and failures, for the same
      environment and the same files on disk. */
  lemma {:induction false} SameMaterialSameConfig(d1: Data, d2: Data, env: Env, disk: Disk, order: seq<Ref>)
    requires NoReservedProvider(d1.state) && NoReservedProvider(d2.state) && Material(d1) == Material(d2)
    requires forall i :: 0 <= i < |order| ==> order[i] in d1.state.channels
    ensures d1.state.channels.Keys == d2.state.channels.Keys
    ensures ConfigOf(EnvOf(env, disk, d1), d1.state, order) == ConfigOf(EnvOf(env, disk, d2), d2.state, order)
    ensures FailuresOf(EnvOf(env, disk, d1), d1.state, order) == FailuresOf(EnvOf(env, disk, d2), d2.state, order)
    ensures forall m :: GeoPath(d1.geo, m) == GeoPath(d2.geo, m)
  {
    forall a ensures a in d1.state.channels <==> a in d2.state.channels
             ensures a in d1.state.channels && a in d2.state.channels
                     ==> PartOf(d1.state.channels[a]) == PartOf(d2.state.channels[a])
    {
      if a in d1.state.channels {
        MaterialGivesChannel(d1, d2, a);
      }
      if a in d2.state.channels {
        MaterialGivesChannel(d2, d1, a);
      }
    }
    MaterialGivesRouter(d1);
    MaterialGivesRouter(d2);
    assert GeoMaterial(d1.geo) == GeoMaterial(d2.geo);
    var e1, e2 := EnvOf(env, disk, d1), EnvOf(env, disk, d2);
    forall k, n ensures e1.geo(k, n) == e2.geo(k, n)
      && GeoPath(d1.geo, Matcher(k, n)) == GeoPath(d2.geo, Matcher(k, n)) {
      SameGeoMaterial(d1.geo, d2.geo, disk, Matcher(k, n));
    }
    forall m ensures GeoPath(d1.geo, m) == GeoPath(d2.geo, m) {
      assert m == Matcher(m.kind, m.value);
    }
    SameInputsSameConfig(e1, e2, d1.state, d2.state, order);
  }

  /** The router sections agree wherever they can matter. */
  ghost predicate SameRouter(s1: State, s2: State) {
    && (RouterMatters(s1) <==> RouterMatters(s2))
    && (RouterMatters(s1) ==> RouterPartOf(s1) == RouterPartOf(s2))
  }

  /** Either the same table, or no shared door on either side. */
  lemma {:induction false} SameDoors(e1: Env, e2: Env, s1: State, s2: State, fleet: Fleet)
    requires SameGeo(e1, e2) && SameRouter(s1, s2)
    ensures DoorInbounds(e1, s1.router) == DoorInbounds(e2, s2.router) && s1.router.tun == s2.router.tun
            && s1.router.port == s2.router.port
    ensures RouterMatters(s1) ==>
              TableOf(e1, s1.router, fleet) == TableOf(e2, s2.router, fleet)
                  && RuleParts(s1.rules) == RuleParts(s2.rules)
    ensures !RouterMatters(s1) ==> TableOf(e1, s1.router, fleet).entries == {} == TableOf(e2, s2.router, fleet).entries
  {
  }

  lemma {:induction false} SameTableRules(e1: Env, e2: Env, t: Table, r1: seq<Rule>, r2: seq<Rule>)
    requires SameGeo(e1, e2) && RuleParts(r1) == RuleParts(r2)
    ensures TableRules(e1, t, r1) == TableRules(e2, t, r2) && TableFailures(e1, t, r1) == TableFailures(e2, t, r2)
    ensures GeoSets(e1, r1) == GeoSets(e2, r2)
  {
    SameTable(e1, e2, t, r1, r2);
  }

  lemma {:induction false} SameInputsSameConfig(e1: Env, e2: Env, s1: State, s2: State, order: seq<Ref>)
    requires SameGeo(e1, e2) && SameChannels(s1.channels, s2.channels) && SameRouter(s1, s2)
    requires forall i :: 0 <= i < |order| ==> order[i] in s1.channels
    ensures ConfigOf(e1, s1, order) == ConfigOf(e2, s2, order)
    ensures FailuresOf(e1, s1, order) == FailuresOf(e2, s2, order)
  {
    SameFleet(e1, e2, s1.channels, s2.channels, order);
    var fleet := FleetOf(e1, s1.channels, order);
    SameDoors(e1, e2, s1, s2, fleet);
    if RouterMatters(s1) {
      SameTableRules(e1, e2, TableOf(e1, s1.router, fleet), s1.rules, s2.rules);
    }
  }

  // ---- what never moves it ----

  /** Labels, probe results, reconnect records and pins without new keys. */
  predicate Bookkeeping(note: Note) {
    match note
    case SetLabel(_) => true
    case SetServer(_, _, _, keys) => keys.None?
    case SetKeys(_) => false
    case SetProbe(_) => true
    case SetReconnect(_) => true
    case FinishAttempt(_, newKeys) => newKeys.None?
  }

  lemma {:induction false} SamePartsSameProviders(a: map<Ref, Channel>, b: map<Ref, Channel>)
    requires SameChannels(a, b)
    ensures ProviderParts(a) == ProviderParts(b)
  {
    forall p ensures ProviderPart(a, p) == ProviderPart(b, p) {
      forall r | r in a && r.provider == p ensures ProviderPart(a, p)[r.cid] == ProviderPart(b, p)[r.cid] {
        ProviderPartAt(a, r);
        ProviderPartAt(b, r);
      }
    }
  }

  /** Bookkeeping writes never move the signature, so they never cause a reconcile. */
  lemma {:induction false} BookkeepingKeepsMaterial(d: Data, ref: Ref, note: Note, known: Option<Channel>)
    requires Bookkeeping(note) && WriteNote(d.state, ref, note, known).Ok?
    ensures Material(d.(state := WriteNote(d.state, ref, note, known).value)) == Material(d)
  {
    SamePartsSameProviders(d.state.channels, WriteNote(d.state, ref, note, known).value.channels);
  }

  // ---- the reserved keys ----

  ghost predicate ProvidersIn(s: State, names: set<string>) {
    forall a <- s.channels.Keys :: a.provider in names
  }

  /** The same channels, and the same config and failures whatever the order they are visited in. */
  ghost predicate SameConfigs(d1: Data, d2: Data, env: Env, disk: Disk) {
    && d1.state.channels.Keys == d2.state.channels.Keys
    && forall order: seq<Ref> | Enumerates(order, d1.state.channels.Keys) ::
         && ConfigOf(EnvOf(env, disk, d1), d1.state, order) == ConfigOf(EnvOf(env, disk, d2), d2.state, order)
         && FailuresOf(EnvOf(env, disk, d1), d1.state, order) == FailuresOf(EnvOf(env, disk, d2), d2.state, order)
  }

  /** Over states with providers of these names, equal material always means an equal config. */
  ghost predicate MaterialDecides(names: set<string>, env: Env, disk: Disk) {
    forall d1: Data, d2: Data | ProvidersIn(d1.state, names) && ProvidersIn(d2.state, names)
      && Material(d1) == Material(d2) ::
      SameConfigs(d1, d2, env, disk)
  }

  const PEER := Peer("h", 1, "k", [V4("0.0.0.0/0")], 0, "")
  const KEYED := Wg("p", [V4("10.0.0.2/32")], Some(PEER))
  const HIDDEN := Channel("", "", "", "", KEYED, 7, false, None, true, false, None, None)

  /** With a router port set. */
  const PLAIN: State := BLANK.(router := BLANK.router.(port := 9))

  const SOME_GEO: map<string, GeoRecord> := map["geosite" := GeoRecord("c", map["x" := "d"])]

  /** The same state with one channel of a provider that has the given name. */
  function WithHidden(name: string): State {
    PLAIN.(channels := map[Ref(name, "c") := HIDDEN])
  }

  /** Such a channel is part of the build, so the two configs differ. */
  lemma {:induction false} HiddenChannelBuilds(env: Env, name: string)
    requires 7 !in env.held
    ensures |ConfigOf(env, WithHidden(name), [Ref(name, "c")]).endpoints| == 1
            && ConfigOf(env, PLAIN, []).endpoints == []
  {
    var order := [Ref(name, "c")];
    assert order[..|order| - 1] == [];
    assert FleetOf(env, WithHidden(name).channels, []) == NO_FLEET;
    assert EndpointOf(env, order[0], HIDDEN).Some?;
  }

  /** A provider named after a reserved key is overwritten in the material: its channels come and go unseen. */
  lemma {:induction false} ReservedProviderIsHidden(name: string)
    requires name == "_router" || name == "_geodata"
    ensures Material(Data(WithHidden(name), SOME_GEO)) == Material(Data(PLAIN, SOME_GEO))
    ensures WithHidden(name).channels.Keys != PLAIN.channels.Keys
  {
    OneProviderPart(name);
    assert "geosite" in GeoMaterial(SOME_GEO);
    assert RouterPartOf(WithHidden(name)) == RouterPartOf(PLAIN);
    Overwritten(ProviderParts(WithHidden(name).channels), name, RouterPartOf(PLAIN), GeoPart(GeoMaterial(SOME_GEO)));
    assert Ref(name, "c") in WithHidden(name).channels;
  }

  lemma {:induction false} OneProviderPart(name: string)
    ensures ProviderParts(WithHidden(name).channels).Keys == {name} && ProviderParts(PLAIN.channels) == map[]
  {
    assert Ref(name, "c") in WithHidden(name).channels;
  }

  lemma {:induction false} Overwritten(parts: map<string, Part>, name: string, router: Part, geo: Part)
    requires parts.Keys == {name} && (name == "_router" || name == "_geodata")
    ensures parts["_router" := router]["_geodata" := geo] == map["_router" := router]["_geodata" := geo]
  {
  }

  /** Exactly the two reserved keys must not be provider names: without them the material misses nothing, and with
      either of them it misses a channel. */
  lemma {:induction false} MaterialDecidesIff(names: set<string>, env: Env, disk: Disk)
    ensures MaterialDecides(names, env, disk) <==> "_router" !in names && "_geodata" !in names
  {
    if "_router" !in names && "_geodata" !in names {
      forall d1: Data, d2: Data | ProvidersIn(d1.state, names) && ProvidersIn(d2.state, names)
        && Material(d1) == Material(d2)
        ensures SameConfigs(d1, d2, env, disk)
      {
        SameMaterialSameConfigs(d1, d2, env, disk);
      }
    } else {
      var name := if "_router" in names then "_router" else "_geodata";
      ReservedProviderIsHidden(name);
      assert ProvidersIn(WithHidden(name), names) && ProvidersIn(PLAIN, names);
      assert !SameConfigs(Data(WithHidden(name), SOME_GEO), Data(PLAIN, SOME_GEO), env, disk);
    }
  }

  lemma {:induction false} SameMaterialSameConfigs(d1: Data, d2: Data, env: Env, disk: Disk)
    requires NoReservedProvider(d1.state) && NoReservedProvider(d2.state) && Material(d1) == Material(d2)
    ensures SameConfigs(d1, d2, env, disk)
  {
    SameMaterialSameConfig(d1, d2, env, disk, []);
    forall order: seq<Ref> | Enumerates(order, d1.state.channels.Keys)
      ensures ConfigOf(EnvOf(env, disk, d1), d1.state, order) == ConfigOf(EnvOf(env, disk, d2), d2.state, order)
      ensures FailuresOf(EnvOf(env, disk, d1), d1.state, order) == FailuresOf(EnvOf(env, disk, d2), d2.state, order)
    {
      SameMaterialSameConfig(d1, d2, env, disk, order);
    }
  }
}
