/** What the compiled config does, rule by rule, told over the stored state alone. */
module ConfigMeaning {
  import opened Common
  import opened Routes
  import opened State
  import opened Setup
  import opened RouteCompiler
  import opened RouteSafety
  import opened LanShadow

  /** The shared door the connection came in by is open. */
  predicate CameIn(env: Env, router: Router, f: Flow) {
    || (f.entry == RouterEntry && router.port != 0 && router.port !in env.held)
    || (f.entry == TunEntry && router.tun)
  }

  /** Some channel of the build carries IPv6. */
  ghost predicate SomeV6(env: Env, s: State, order: seq<Ref>) {
    exists a <- order :: a in s.channels && Buildable(env, s.channels[a]) && CarriesV6(env, a, s.channels[a])
  }

  /** DHCP, SSDP and mDNS. */
  predicate LanPort(f: Flow) {
    f.udp && f.port in {67, 68, 1900, 5353}
  }

  predicate LanAddress(f: Flow) {
    f.ip.Some? && InLan(f.ip.value)
  }

  /** The rule can be evaluated and does not concern the connection. */
  predicate PassesBy(env: Env, r: Rule, f: Flow) {
    && (IsGeo(r.matcher.kind) ==> env.geo(r.matcher.kind, r.matcher.value).Some?)
    && !MatchDestination(env.parse, env.geo, r.matcher, f.Destination())
  }

  /** Nothing ahead of the user's rules takes the connection. */
  ghost predicate ReachesRules(env: Env, s: State, order: seq<Ref>, f: Flow) {
    && CameIn(env, s.router, f)
    && !(s.router.lanDirect && (LanPort(f) || LanAddress(f)))
    && !(f.entry == TunEntry && f.dns)
    && (f.entry == TunEntry && f.V6() ==> SomeV6(env, s, order))
  }

  /** What a matching rule wants. A tunnel that is not there, or that cannot carry the connection's IPv6 while some
      other one can, is no way out: the connection is rejected, never let through. */
  ghost predicate Obeyed(env: Env, s: State, order: seq<Ref>, target: Target, f: Flow, a: Action) {
    match target
    case Direct => a == ToDirect
    case Block => a == Reject
    case Bare(_) => a == Reject
    case Via(ref) =>
      if ref !in order || ref !in s.channels || !Buildable(env, s.channels[ref]) then a == Reject
      else if f.V6() && s.router.tun && SomeV6(env, s, order) && !CarriesV6(env, ref, s.channels[ref])
      then a == Reject
      else a == ToChannel(ref)
  }

  lemma {:induction false} FleetBuilt(env: Env, s: State, order: seq<Ref>, ref: Ref)
    requires Known(s, order)
    ensures var fleet := FleetOf(env, s.channels, order);
            && (ref in fleet.built <==> ref in order && ref in s.channels && Buildable(env, s.channels[ref]))
            && (ref in fleet.v6 <==> ref in order && ref in s.channels && Buildable(env, s.channels[ref])
                                     && CarriesV6(env, ref, s.channels[ref]))
            && (fleet.v6 != {} <==> SomeV6(env, s, order))
  {
    FleetIsUsable(env, s.channels, order, ref);
    SomeCarriesV6(env, s, order);
  }

  lemma {:induction false} FirstVerdict(env: Env, t: Table, rules: seq<Rule>, f: Flow, k: nat)
    requires k <= |rules| && forall i :: 0 <= i < k ==> PassesBy(env, rules[i], f)
    ensures UserVerdicts(env, t, rules[..k], f) == None
  {
    if k > 0 {
      assert rules[..k][..k - 1] == rules[..k - 1];
      FirstVerdict(env, t, rules, f, k - 1);
    }
  }

  lemma {:induction false} VerdictStands(env: Env, t: Table, rules: seq<Rule>, f: Flow, k: nat)
    requires k <= |rules| && UserVerdicts(env, t, rules[..k], f).Some?
    ensures UserVerdicts(env, t, rules, f) == UserVerdicts(env, t, rules[..k], f)
    decreases |rules|
  {
    if k < |rules| {
      assert rules[..|rules| - 1][..k] == rules[..k];
      VerdictStands(env, t, rules[..|rules| - 1], f, k);
    } else {
      assert rules[..k] == rules;
    }
  }

  /** Rule `k` decides: the first that concerns the connection. */
  lemma {:induction false} KthVerdict(env: Env, t: Table, rules: seq<Rule>, f: Flow, k: nat)
    requires k < |rules| && forall i :: 0 <= i < k ==> PassesBy(env, rules[i], f)
    requires UserVerdict(env, t, rules[k], f).Some?
    ensures UserVerdicts(env, t, rules, f) == UserVerdict(env, t, rules[k], f)
  {
    FirstVerdict(env, t, rules, f, k);
    assert rules[..k + 1][..k] == rules[..k];
    VerdictStands(env, t, rules, f, k + 1);
  }

  lemma {:induction false} WhatComesFirst(env: Env, s: State, order: seq<Ref>, f: Flow)
    requires Known(s, order) && CameIn(env, s.router, f)
    ensures var t := TableOf(env, s.router, FleetOf(env, s.channels, order));
            && Verdict(env, ConfigOf(env, s, order).rules, f) == Intended(env, t, s.rules, f)
            && (t.v6 != {} <==> SomeV6(env, s, order))
            && (InSome(f, LAN_DIRECT_CIDRS) <==> LanAddress(f))
  {
    ConfigMeansIntended(env, s, order, f);
    FleetBuilt(env, s, order, Ref("", ""));
    LanIntervals(f);
  }

  /** First match wins: the target of the first rule that matches decides what happens to the connection. */
  lemma {:induction false} FirstMatchDecides(env: Env, s: State, order: seq<Ref>, f: Flow, k: nat)
    requires Known(s, order) && ReachesRules(env, s, order, f)
    requires k < |s.rules| && forall i :: 0 <= i < k ==> PassesBy(env, s.rules[i], f)
    requires MatchDestination(env.parse, env.geo, s.rules[k].matcher, f.Destination())
    ensures Obeyed(env, s, order, s.rules[k].target, f, Verdict(env, ConfigOf(env, s, order).rules, f))
  {
    var t := TableOf(env, s.router, FleetOf(env, s.channels, order));
    WhatComesFirst(env, s, order, f);
    if s.rules[k].target.Via? {
      FleetBuilt(env, s, order, s.rules[k].target.ref);
    }
    KthVerdict(env, t, s.rules, f, k);
  }

  /** A geo rule without its verified file blocks what reaches it. */
  lemma {:induction false} UncachedRuleBlocks(env: Env, s: State, order: seq<Ref>, f: Flow, k: nat)
    requires Known(s, order) && ReachesRules(env, s, order, f)
    requires k < |s.rules| && forall i :: 0 <= i < k ==> PassesBy(env, s.rules[i], f)
    requires IsGeo(s.rules[k].matcher.kind) && env.geo(s.rules[k].matcher.kind, s.rules[k].matcher.value).None?
    ensures Verdict(env, ConfigOf(env, s, order).rules, f) == Reject
  {
    var t := TableOf(env, s.router, FleetOf(env, s.channels, order));
    WhatComesFirst(env, s, order, f);
    KthVerdict(env, t, s.rules, f, k);
  }

  /** What no rule concerns: IPv6 from tun and, with the kill-switch on, everything is rejected; the rest goes
      direct. */
  lemma {:induction false} UnmatchedFalls(env: Env, s: State, order: seq<Ref>, f: Flow)
    requires Known(s, order) && ReachesRules(env, s, order, f)
    requires forall i :: 0 <= i < |s.rules| ==> PassesBy(env, s.rules[i], f)
    ensures Verdict(env, ConfigOf(env, s, order).rules, f)
            == if (f.entry == TunEntry && f.V6()) || s.router.killswitch then Reject else ToDirect
  {
    var t := TableOf(env, s.router, FleetOf(env, s.channels, order));
    WhatComesFirst(env, s, order, f);
    FirstVerdict(env, t, s.rules, f, |s.rules|);
    assert s.rules[..|s.rules|] == s.rules;
  }

  lemma {:induction false} AheadOfVerdicts(env: Env, t: Table, rules: seq<Rule>, f: Flow)
    ensures var a := Intended(env, t, rules, f);
            if t.lanDirect && f.udp && f.port in LAN_DIRECT_UDP_PORTS then a == ToDirect
            else if f.entry == TunEntry && f.dns then a == HijackDns
            else if t.lanDirect && InSome(f, LAN_DIRECT_CIDRS) then a == ToDirect
            else f.entry == TunEntry && f.V6() && t.v6 == {} ==> a == Reject
  {
  }

  /** What happens ahead of all rules, in this order: LAN ports direct, DNS from tun hijacked, LAN addresses direct,
      IPv6 from tun rejected when no tunnel carries it. */
  lemma {:induction false} AheadOfRules(env: Env, s: State, order: seq<Ref>, f: Flow)
    requires Known(s, order) && CameIn(env, s.router, f)
    ensures var a := Verdict(env, ConfigOf(env, s, order).rules, f);
            if s.router.lanDirect && LanPort(f) then a == ToDirect
            else if f.entry == TunEntry && f.dns then a == HijackDns
            else if s.router.lanDirect && LanAddress(f) then a == ToDirect
            else f.entry == TunEntry && f.V6() && !SomeV6(env, s, order) ==> a == Reject
  {
    WhatComesFirst(env, s, order, f);
    AheadOfVerdicts(env, TableOf(env, s.router, FleetOf(env, s.channels, order)), s.rules, f);
  }

  // ---- what is reported ----

  lemma {:induction false} FleetFailures(env: Env, channels: map<Ref, Channel>, order: seq<Ref>, x: Failure)
    requires forall i :: 0 <= i < |order| ==> order[i] in channels
    ensures x in FleetOf(env, channels, order).failures
            <==> || (x.PortHeld? && x.ref in order && channels[x.ref].enabled && channels[x.ref].port in env.held)
                 || (x.NoKeys? && x.ref in order && channels[x.ref].enabled && channels[x.ref].port !in env.held
                     && !HasKeys(channels[x.ref]))
  {
    if order != [] {
      FleetFailures(env, channels, order[..|order| - 1], x);
      assert order == order[..|order| - 1] + [order[|order| - 1]];
      EndpointServes(env, order[|order| - 1], channels[order[|order| - 1]]);
    }
  }

  /** Why a rule is reported, if it is. */
  ghost predicate RuleFails(env: Env, s: State, order: seq<Ref>, r: Rule, x: Failure) {
    var uncached := IsGeo(r.matcher.kind) && env.geo(r.matcher.kind, r.matcher.value).None?;
    var known := r.matcher.kind in {"domain_suffix", "ip_cidr", "geosite", "geoip", "all"};
    || (x == NotCached(r.id) && uncached)
    || (x == UnknownType(r.id) && !known)
    || (x == Unusable(r.id) && known && !uncached
        && (r.target.Bare?
            || (r.target.Via? && !(r.target.ref in order && r.target.ref in s.channels
                                   && Buildable(env, s.channels[r.target.ref])))))
  }

  lemma {:induction false} RuleFailureMeans(env: Env, s: State, order: seq<Ref>, r: Rule, x: Failure)
    requires Known(s, order)
    ensures x in RuleFailures(env, TableOf(env, s.router, FleetOf(env, s.channels, order)), r)
            <==> RuleFails(env, s, order, r, x)
  {
    if r.target.Via? {
      FleetBuilt(env, s, order, r.target.ref);
    }
  }

  lemma {:induction false} TableFailuresMean(env: Env, s: State, order: seq<Ref>, rules: seq<Rule>, x: Failure)
    requires Known(s, order)
    ensures x in TableFailures(env, TableOf(env, s.router, FleetOf(env, s.channels, order)), rules)
            <==> exists r <- rules :: RuleFails(env, s, order, r, x)
  {
    if rules != [] {
      var front, last := rules[..|rules| - 1], rules[|rules| - 1];
      TableFailuresMean(env, s, order, front, x);
      RuleFailureMeans(env, s, order, last, x);
      assert rules == front + [last];
    }
  }

  /** Exactly what is wrong is reported: held ports, missing keys, rules that cannot work. */
  lemma {:induction false} FailuresMean(env: Env, s: State, order: seq<Ref>, x: Failure)
    requires Known(s, order)
    ensures x in FailuresOf(env, s, order)
            <==> || (x.PortHeld? && x.ref in order && s.channels[x.ref].enabled && s.channels[x.ref].port in env.held)
                 || (x.NoKeys? && x.ref in order && s.channels[x.ref].enabled && s.channels[x.ref].port !in env.held
                     && !HasKeys(s.channels[x.ref]))
                 || (x == RouterPortHeld && s.router.port != 0 && s.router.port in env.held)
                 || ((s.router.tun || (s.router.port != 0 && s.router.port !in env.held))
                     && exists r <- s.rules :: RuleFails(env, s, order, r, x))
  {
    FleetFailures(env, s.channels, order, x);
    TableFailuresMean(env, s, order, s.rules, x);
  }
}
