/** Channels, ports and the operations on them; the standing invariants of the committed state. */
module Setup {
  import opened Common
  import opened State
  import opened RulesetOps
  import Routes

  // ---- the invariants ----

  /** Restrict-only: a rule that targets a channel names one that exists and is enabled. */
  ghost predicate RestrictOnly(channels: map<Ref, Channel>, rules: seq<Rule>) {
    forall i :: 0 <= i < |rules| ==> TargetOk(channels, rules[i].target)
  }

  /** `_ensure_channel_target` passes. */
  predicate TargetOk(channels: map<Ref, Channel>, t: Target) {
    t.Via? ==> t.ref in channels && channels[t.ref].enabled
  }

  /** All nonzero ports of channels and router are pairwise distinct. */
  predicate DistinctPorts(channels: map<Ref, Channel>, router: Router) {
    && (forall a <- channels.Keys, b <- channels.Keys ::
          a != b && channels[a].port != 0 ==> channels[a].port != channels[b].port)
    && (forall a <- channels.Keys :: channels[a].port != 0 ==> channels[a].port != router.port)
  }

  ghost predicate ProvidersExist(providers: map<string, bool>, channels: map<Ref, Channel>) {
    forall a <- channels.Keys :: a.provider in providers
  }

  ghost predicate Inv(s: State) {
    && Grouped(s.rules)
    && UniqueIds(s.rules)
    && RestrictOnly(s.channels, s.rules)
    && DistinctPorts(s.channels, s.router)
    && ProvidersExist(s.providers, s.channels)
  }

  /** `_router_blank` inside `_blank` */
  const BLANK: State := State(map[], map[], Router(0, false, None, false, true, false), [])

  // ---- ports ----

  /** `_used_ports`: every claimed port. */
  function UsedPorts(channels: map<Ref, Channel>, router: Router): set<nat> {
    (set a | a in channels && channels[a].port != 0 :: channels[a].port)
    + (if router.port != 0 then {router.port} else {})
  }

  /** The ports claimed by anyone but the channel being (re)pointed. */
  function OtherPorts(channels: map<Ref, Channel>, router: Router, exclude: Ref): set<nat> {
    UsedPorts(channels - {exclude}, router)
  }

  predicate ValidPort(port: nat) {
    0 < port <= 65535
  }

  /** `_claim_port` for the channel `ref`. */
  predicate ClaimOk(channels: map<Ref, Channel>, router: Router, port: nat, ref: Ref) {
    ValidPort(port) && port !in OtherPorts(channels, router, ref)
  }

  /** `_next_free_port` handed out the head of `offers`; anything but a fresh port stands for its failure. */
  predicate OfferOk(channels: map<Ref, Channel>, router: Router, offers: seq<nat>) {
    offers != [] && ValidPort(offers[0]) && offers[0] !in UsedPorts(channels, router)
  }

  /** Setting one channel's record keeps ports distinct when its port is kept, zero, or unclaimed by others. */
  lemma {:induction false} SetChannelKeepsPorts(channels: map<Ref, Channel>, router: Router, ref: Ref, ch: Channel)
    requires DistinctPorts(channels, router)
    requires || (ref in channels && ch.port == channels[ref].port)
             || ch.port == 0
             || ch.port !in OtherPorts(channels, router, ref)
    ensures DistinctPorts(channels[ref := ch], router)
  {
    var next := channels[ref := ch];
    forall a | a in channels && a != ref ensures ch.port == 0 || channels[a].port != ch.port {
      if ch.port != 0 && !(ref in channels && ch.port == channels[ref].port) {
        assert a in channels - {ref};
      }
    }
  }

  lemma {:induction false} RemovalKeepsPorts(channels: map<Ref, Channel>, router: Router, gone: set<Ref>)
    requires DistinctPorts(channels, router)
    ensures DistinctPorts(channels - gone, router)
  {
  }

  // ---- bundle entries ----

  /** One channel of a validated bundle; port 0 and `enabled == None` mean unstated. */
  datatype ChannelSpec = ChannelSpec(ref: Ref, country: string, city: string, title: string, server: string,
                                     wg: Wg, port: nat, enabled: Option<bool>)

  datatype RulesetSpec = RulesetSpec(name: string, target: Target, matchers: seq<Routes.Matcher>)

  datatype Bundle = Bundle(providers: seq<string>, channels: seq<ChannelSpec>, rulesets: seq<RulesetSpec>,
                           killswitch: Option<bool>, lanDirect: Option<bool>, routerPort: nat)

  /** Bundles are mappings: a channel is declared once, under a provider the bundle names. */
  ghost predicate WellFormedBundle(b: Bundle) {
    && (forall i, j :: 0 <= i < j < |b.channels| ==> b.channels[i].ref != b.channels[j].ref)
    && (forall i :: 0 <= i < |b.channels| ==> b.channels[i].ref.provider in b.providers)
  }

  function BundleRefs(specs: seq<ChannelSpec>): set<Ref> {
    set i | 0 <= i < |specs| :: specs[i].ref
  }

  // ---- upserting one channel ----

  datatype Change = Created | Updated | Unchanged

  /** Where an upsert pass stands: the records, the ports the allocator will hand out, the report. */
  datatype Upserts = Upserts(channels: map<Ref, Channel>, offers: seq<nat>, changes: seq<Change>)

  /** An explicit `enabled` applies; unstated keeps what is there, and reads enabled for a new channel. */
  function ResolvedEnabled(channels: map<Ref, Channel>, spec: ChannelSpec): bool {
    match spec.enabled
    case Some(e) => e
    case None => if spec.ref in channels then channels[spec.ref].enabled else true
  }

  function NewChannel(spec: ChannelSpec, port: nat, enabled: bool, managed: bool): Channel {
    Channel(spec.country, spec.city, spec.title, spec.server, spec.wg, port, spec.port != 0, None,
            enabled, managed, None, None)
  }

  /** Nothing about the channel differs from its declaration. */
  predicate Agrees(ch: Channel, spec: ChannelSpec, enabled: bool, sync: bool) {
    && ch.country == spec.country && ch.city == spec.city && ch.server == spec.server
    && ch.wg == spec.wg && ch.enabled == enabled
    && (spec.title == "" || ch.title == spec.title)
    && (spec.port == 0 || ch.port == spec.port)
    && (if sync then (spec.port != 0) == ch.portExplicit else spec.port != 0 ==> ch.portExplicit)
  }

  function Converged(ch: Channel, spec: ChannelSpec, enabled: bool, sync: bool): Channel {
    ch.(country := spec.country, city := spec.city, server := spec.server, wg := spec.wg,
        port := if spec.port != 0 then spec.port else ch.port,
        portExplicit := if spec.port != 0 then true else if sync then false else ch.portExplicit,
        title := if spec.title != "" then spec.title else ch.title,
        enabled := enabled,
        probe := if enabled then ch.probe else None,
        reconnect := None)
  }

  function UpsertOne(u: Upserts, router: Router, spec: ChannelSpec, sync: bool): Result<Upserts, string> {
    var enabled := ResolvedEnabled(u.channels, spec);
    if spec.ref !in u.channels then
      if spec.port != 0 then
        if ClaimOk(u.channels, router, spec.port, spec.ref)
        then Ok(Upserts(u.channels[spec.ref := NewChannel(spec, spec.port, enabled, sync)], u.offers,
                        u.changes + [Created]))
        else Err("port in use")
      else if OfferOk(u.channels, router, u.offers)
      then Ok(Upserts(u.channels[spec.ref := NewChannel(spec, u.offers[0], enabled, sync)], u.offers[1..],
                      u.changes + [Created]))
      else Err("no free port")
    else
      var ch := u.channels[spec.ref];
      if Agrees(ch, spec, enabled, sync) then Ok(u.(changes := u.changes + [Unchanged]))
      else if spec.port != 0 && spec.port != ch.port && !ClaimOk(u.channels, router, spec.port, spec.ref)
      then Err("port in use")
      else Ok(u.(channels := u.channels[spec.ref := Converged(ch, spec, enabled, sync)],
                 changes := u.changes + [Updated]))
  }

  function UpsertAll(u: Upserts, router: Router, specs: seq<ChannelSpec>, sync: bool): Result<Upserts, string> {
    if specs == [] then Ok(u)
    else
      match UpsertAll(u, router, specs[..|specs| - 1], sync)
      case Err(e) => Err(e)
      case Ok(v) => UpsertOne(v, router, specs[|specs| - 1], sync)
  }

  lemma {:induction false} UpsertOneKeepsPorts(u: Upserts, router: Router, spec: ChannelSpec, sync: bool)
    requires DistinctPorts(u.channels, router) && UpsertOne(u, router, spec, sync).Ok?
    ensures DistinctPorts(UpsertOne(u, router, spec, sync).value.channels, router)
  {
    var v := UpsertOne(u, router, spec, sync).value;
    if v.channels != u.channels {
      var ch := v.channels[spec.ref];
      assert v.channels == u.channels[spec.ref := ch];
      if spec.ref !in u.channels {
        assert u.channels - {spec.ref} == u.channels;
      }
      SetChannelKeepsPorts(u.channels, router, spec.ref, ch);
    }
  }

  lemma {:induction false} UpsertAllKeepsPorts(u: Upserts, router: Router, specs: seq<ChannelSpec>, sync: bool)
    requires DistinctPorts(u.channels, router) && UpsertAll(u, router, specs, sync).Ok?
    ensures DistinctPorts(UpsertAll(u, router, specs, sync).value.channels, router)
  {
    if specs != [] {
      UpsertAllKeepsPorts(u, router, specs[..|specs| - 1], sync);
      UpsertOneKeepsPorts(UpsertAll(u, router, specs[..|specs| - 1], sync).value, router, specs[|specs| - 1], sync);
    }
  }

  /** `after` differs from `before` only at `refs`, where records may be added or rewritten under the same mark. */
  ghost predicate TouchesOnly(before: map<Ref, Channel>, after: map<Ref, Channel>, refs: set<Ref>) {
    && after.Keys == before.Keys + refs
    && (forall a <- before.Keys :: a !in refs ==> after[a] == before[a])
    && (forall a <- before.Keys :: after[a].managed == before[a].managed)
  }

  lemma {:induction false} UpsertOneFrame(u: Upserts, router: Router, spec: ChannelSpec, sync: bool)
    requires UpsertOne(u, router, spec, sync).Ok?
    ensures var v := UpsertOne(u, router, spec, sync).value;
            TouchesOnly(u.channels, v.channels, {spec.ref}) && |v.changes| == |u.changes| + 1
  {
  }

  lemma {:induction false} TouchesMore(a: map<Ref, Channel>, b: map<Ref, Channel>, c: map<Ref, Channel>,
                                       refs: set<Ref>, ref: Ref)
    requires TouchesOnly(a, b, refs) && TouchesOnly(b, c, {ref})
    ensures TouchesOnly(a, c, refs + {ref})
  {
  }

  /** Upserts touch only declared channels, add nothing else, and keep provenance marks. */
  lemma {:induction false} UpsertAllFrame(u: Upserts, router: Router, specs: seq<ChannelSpec>, sync: bool)
    requires UpsertAll(u, router, specs, sync).Ok?
    ensures var out := UpsertAll(u, router, specs, sync).value;
            TouchesOnly(u.channels, out.channels, BundleRefs(specs)) && |out.changes| == |u.changes| + |specs|
  {
    if specs != [] {
      var front, last := specs[..|specs| - 1], specs[|specs| - 1];
      UpsertAllFrame(u, router, front, sync);
      var mid := UpsertAll(u, router, front, sync).value;
      UpsertOneFrame(mid, router, last, sync);
      TouchesMore(u.channels, mid.channels, UpsertOne(mid, router, last, sync).value.channels, BundleRefs(front),
                  last.ref);
      assert specs == front + [last];
      RefsAppend(front, last);
    }
  }

  lemma {:induction false} RefsAppend(front: seq<ChannelSpec>, last: ChannelSpec)
    ensures BundleRefs(front + [last]) == BundleRefs(front) + {last.ref}
  {
    var specs := front + [last];
    forall a ensures a in BundleRefs(specs) <==> a in BundleRefs(front) || a == last.ref {
      if a in BundleRefs(front) {
        var i :| 0 <= i < |front| && front[i].ref == a;
        assert specs[i].ref == a;
      }
      if a == last.ref {
        assert specs[|front|].ref == a;
      }
    }
  }

  /** What a declared channel looks like once an upsert pass has gone by. */
  ghost predicate Settled(channels: map<Ref, Channel>, spec: ChannelSpec, sync: bool) {
    spec.ref in channels && Agrees(channels[spec.ref], spec, ResolvedEnabled(channels, spec), sync)
  }

  lemma {:induction false} UpsertOneSettles(u: Upserts, router: Router, spec: ChannelSpec, sync: bool)
    requires UpsertOne(u, router, spec, sync).Ok?
    ensures Settled(UpsertOne(u, router, spec, sync).value.channels, spec, sync)
  {
  }

  /** After a pass every declared channel agrees with its declaration. */
  lemma {:induction false} UpsertAllSettles(u: Upserts, router: Router, specs: seq<ChannelSpec>, sync: bool, i: nat)
    requires UpsertAll(u, router, specs, sync).Ok? && i < |specs|
    requires forall a, b :: 0 <= a < b < |specs| ==> specs[a].ref != specs[b].ref
    ensures Settled(UpsertAll(u, router, specs, sync).value.channels, specs[i], sync)
  {
    var front, last := specs[..|specs| - 1], specs[|specs| - 1];
    var before := UpsertAll(u, router, front, sync).value;
    if i < |front| {
      assert front[i] == specs[i] && specs[i].ref != last.ref;
      UpsertAllSettles(u, router, front, sync, i);
    } else {
      UpsertOneSettles(before, router, last, sync);
    }
  }

  /** A pass over settled channels changes nothing, whatever ports the allocator would offer. */
  lemma {:induction false} SettledPassIsIdentity(u: Upserts, router: Router, specs: seq<ChannelSpec>, sync: bool)
    requires forall i :: 0 <= i < |specs| ==> Settled(u.channels, specs[i], sync)
    ensures var out := UpsertAll(u, router, specs, sync);
            && out.Ok? && out.value.channels == u.channels && out.value.offers == u.offers
            && out.value.changes == u.changes + Unchangeds(|specs|)
  {
    if specs != [] {
      var front, last := specs[..|specs| - 1], specs[|specs| - 1];
      SettledPassIsIdentity(u, router, front, sync);
      assert Settled(u.channels, specs[|specs| - 1], sync);
      assert u.changes + Unchangeds(|front|) + [Unchanged] == u.changes + Unchangeds(|specs|);
    }
  }

  function Unchangeds(n: nat): (c: seq<Change>)
    ensures |c| == n && forall i :: 0 <= i < n ==> c[i] == Unchanged
  {
    if n == 0 then [] else Unchangeds(n - 1) + [Unchanged]
  }

  // ---- the router's toggles and declared port ----

  function OrKeep(stated: Option<bool>, current: bool): bool {
    if stated.Some? then stated.value else current
  }

  /** The tail of a merge or sync: stated toggles, then the declared router port. */
  function RouterAfter(channels: map<Ref, Channel>, router: Router, b: Bundle, sync: bool): Result<Router, string> {
    var toggled := router.(killswitch := OrKeep(b.killswitch, router.killswitch),
                           lanDirect := OrKeep(b.lanDirect, router.lanDirect));
    if b.routerPort == 0 then Ok(if sync then toggled.(portExplicit := false) else toggled)
    else if b.routerPort != router.port && b.routerPort in UsedPorts(channels, router.(port := 0))
    then Err("port in use")
    else Ok(toggled.(port := b.routerPort, portExplicit := true))
  }

  lemma {:induction false} RouterAfterKeepsPorts(channels: map<Ref, Channel>, router: Router, b: Bundle, sync: bool)
    requires DistinctPorts(channels, router) && RouterAfter(channels, router, b, sync).Ok?
    ensures DistinctPorts(channels, RouterAfter(channels, router, b, sync).value)
  {
    if b.routerPort != 0 && b.routerPort != router.port {
      assert forall a <- channels.Keys :: channels[a].port != 0
               ==> channels[a].port in UsedPorts(channels, router.(port := 0));
    }
  }

  // ---- references ----

  /** Some rule targets one of `refs`. */
  predicate References(rules: seq<Rule>, refs: set<Ref>) {
    exists i :: 0 <= i < |rules| && rules[i].target.Via? && rules[i].target.ref in refs
  }

  /** The channels a bundle explicitly disables that are enabled now, or not there yet. */
  function Disabling(channels: map<Ref, Channel>, specs: seq<ChannelSpec>): set<Ref> {
    set i | 0 <= i < |specs| && specs[i].enabled == Some(false)
            && (specs[i].ref in channels ==> channels[specs[i].ref].enabled) :: specs[i].ref
  }
}
