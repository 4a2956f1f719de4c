/** What the compiled config guarantees about every connection. */
module RouteSafety {
  import opened Common
  import opened Routes
  import opened State
  import opened Setup
  import opened RouteCompiler

  ghost predicate Known(s: State, order: seq<Ref>) {
    forall i :: 0 <= i < |order| ==> order[i] in s.channels
  }

  /** Connections by a shared door meet none of the per-channel rules. */
  lemma {:induction false} DoorsSkipChannelRules(env: Env, channels: map<Ref, Channel>, order: seq<Ref>, f: Flow)
    requires forall i :: 0 <= i < |order| ==> order[i] in channels
    requires !f.entry.ChannelEntry?
    ensures Decide(env, FleetOf(env, channels, order).rules, f) == None
  {
    if order != [] {
      var before := FleetOf(env, channels, order[..|order| - 1]);
      var last := order[|order| - 1];
      DoorsSkipChannelRules(env, channels, order[..|order| - 1], f);
      DecideOne(env, OnEntries({ChannelEntry(last)}, ToChannel(last)), f);
      DecideConcat(env, before.rules, [OnEntries({ChannelEntry(last)}, ToChannel(last))], f);
    }
  }

  /** Connections by a channel's own port meet its own rule. */
  lemma {:induction false} ChannelRulesDecide(env: Env, channels: map<Ref, Channel>, order: seq<Ref>, f: Flow)
    requires forall i :: 0 <= i < |order| ==> order[i] in channels
    requires f.entry.ChannelEntry?
    ensures Decide(env, FleetOf(env, channels, order).rules, f)
            == if f.entry.ref in FleetOf(env, channels, order).built then Some(ToChannel(f.entry.ref)) else None
  {
    if order != [] {
      var before := FleetOf(env, channels, order[..|order| - 1]);
      var last := order[|order| - 1];
      ChannelRulesDecide(env, channels, order[..|order| - 1], f);
      DecideOne(env, OnEntries({ChannelEntry(last)}, ToChannel(last)), f);
      DecideConcat(env, before.rules, [OnEntries({ChannelEntry(last)}, ToChannel(last))], f);
    }
  }

  /** A usable channel's own port always leads into its own tunnel, whatever the shared rules say. */
  lemma {:induction false} OwnPortOwnTunnel(env: Env, s: State, order: seq<Ref>, f: Flow)
    requires Known(s, order) && f.entry.ChannelEntry? && f.entry.ref in order
             && Usable(env, f.entry.ref, s.channels[f.entry.ref])
    ensures Verdict(env, ConfigOf(env, s, order).rules, f) == ToChannel(f.entry.ref)
  {
    var fleet := FleetOf(env, s.channels, order);
    FleetIsUsable(env, s.channels, order, f.entry.ref);
    ChannelRulesDecide(env, s.channels, order, f);
    DecideConcat(env, fleet.rules, TableRules(env, TableOf(env, s.router, fleet), s.rules), f);
  }

  /** The compiled config treats every connection by the router or tun door exactly as intended. */
  lemma {:induction false} ConfigMeansIntended(env: Env, s: State, order: seq<Ref>, f: Flow)
    requires Known(s, order) && f.entry in Doors(env, s.router)
    ensures var t := TableOf(env, s.router, FleetOf(env, s.channels, order));
            Verdict(env, ConfigOf(env, s, order).rules, f) == Intended(env, t, s.rules, f)
  {
    var fleet := FleetOf(env, s.channels, order);
    var t := TableOf(env, s.router, fleet);
    DoorsSkipChannelRules(env, s.channels, order, f);
    DecideConcat(env, fleet.rules, TableRules(env, t, s.rules), f);
    TableMeansIntended(env, t, s.rules, f);
  }

  /** Where a user rule can send a connection. */
  lemma {:induction false} UserVerdictsFrom(env: Env, t: Table, rules: seq<Rule>, f: Flow) returns (i: nat)
    requires UserVerdicts(env, t, rules, f).Some?
    ensures i < |rules| && UserVerdict(env, t, rules[i], f) == UserVerdicts(env, t, rules, f)
  {
    if UserVerdicts(env, t, rules[..|rules| - 1], f).Some? {
      i := UserVerdictsFrom(env, t, rules[..|rules| - 1], f);
    } else {
      i := |rules| - 1;
    }
  }

  /** With tun on, no IPv6 connection from it ever enters a channel that cannot carry IPv6. */
  lemma {:induction false} NoV6IntoIncapable(env: Env, s: State, order: seq<Ref>, f: Flow, ref: Ref)
    requires Known(s, order) && s.router.tun && f.entry == TunEntry && f.V6()
    requires Verdict(env, ConfigOf(env, s, order).rules, f) == ToChannel(ref)
    ensures ref in order && Usable(env, ref, s.channels[ref]) && ChannelV6(env, ref, s.channels[ref])
  {
    var t := TableOf(env, s.router, FleetOf(env, s.channels, order));
    ConfigMeansIntended(env, s, order, f);
    FleetIsUsable(env, s.channels, order, ref);
    var i := UserVerdictsFrom(env, t, s.rules, f);
  }

  /** A user rule with target `direct` matches the connection. */
  ghost predicate SentDirect(env: Env, rules: seq<Rule>, f: Flow) {
    exists i :: 0 <= i < |rules| && rules[i].target == Direct
      && MatchDestination(env.parse, env.geo, rules[i].matcher, f.Destination())
  }

  /** A connection the LAN block lets through. */
  predicate LanAllowed(lanDirect: bool, f: Flow) {
    lanDirect && ((f.udp && f.port in LAN_DIRECT_UDP_PORTS) || InSome(f, LAN_DIRECT_CIDRS))
  }

  /** Nothing leaves outside the tunnels except by the LAN block or a `direct` rule, once the kill-switch is on,
      or the connection is IPv6 from tun. */
  lemma {:induction false} DirectOnlyWhenAllowed(env: Env, s: State, order: seq<Ref>, f: Flow)
    requires Known(s, order) && f.entry in Doors(env, s.router)
    requires s.router.killswitch || (f.entry == TunEntry && f.V6())
    requires Verdict(env, ConfigOf(env, s, order).rules, f) == ToDirect
    ensures LanAllowed(s.router.lanDirect, f) || SentDirect(env, s.rules, f)
  {
    var t := TableOf(env, s.router, FleetOf(env, s.channels, order));
    ConfigMeansIntended(env, s, order, f);
    if !LanAllowed(s.router.lanDirect, f) {
      var i := UserVerdictsFrom(env, t, s.rules, f);
      assert s.rules[i].target == Direct;
    }
  }

  /** Every tunnel a compiled rule names is in the build, so sing-box never meets a missing outbound tag. */
  lemma {:induction false} CompiledTunnelsExist(env: Env, t: Table, rules: seq<Rule>, i: nat)
    requires i < |CompileRules(env, t, rules)| && CompileRules(env, t, rules)[i].action.ToChannel?
    ensures CompileRules(env, t, rules)[i].action.ref in t.built
  {
    var front := CompileRules(env, t, rules[..|rules| - 1]);
    if i < |front| {
      CompiledTunnelsExist(env, t, rules[..|rules| - 1], i);
    } else {
      assert CompileRules(env, t, rules)[i] == CompileRule(env, t, rules[|rules| - 1])[i - |front|];
    }
  }

  lemma {:induction false} BuiltHasEndpoint(env: Env, channels: map<Ref, Channel>, order: seq<Ref>, a: Ref)
    requires forall i :: 0 <= i < |order| ==> order[i] in channels
    ensures a in FleetOf(env, channels, order).built
            <==> exists i :: 0 <= i < |FleetOf(env, channels, order).endpoints|
                   && FleetOf(env, channels, order).endpoints[i].ref == a
  {
    if order != [] {
      var before := FleetOf(env, channels, order[..|order| - 1]);
      var after := FleetOf(env, channels, order);
      BuiltHasEndpoint(env, channels, order[..|order| - 1], a);
      assert |after.endpoints| > |before.endpoints| ==> after.endpoints[|before.endpoints|].ref == order[|order| - 1];
      assert forall i :: 0 <= i < |before.endpoints| ==> after.endpoints[i] == before.endpoints[i];
    }
  }

  lemma {:induction false} FleetTunnelsExist(env: Env, channels: map<Ref, Channel>, order: seq<Ref>, i: nat)
    requires forall k :: 0 <= k < |order| ==> order[k] in channels
    requires i < |FleetOf(env, channels, order).rules|
    ensures var r := FleetOf(env, channels, order).rules[i];
            r.action.ToChannel? && r.action.ref in FleetOf(env, channels, order).built
  {
    var before := FleetOf(env, channels, order[..|order| - 1]);
    if i < |before.rules| {
      FleetTunnelsExist(env, channels, order[..|order| - 1], i);
      assert FleetOf(env, channels, order).rules[i] == before.rules[i];
    }
  }

  lemma {:induction false} FleetRulesNameBuilt(env: Env, channels: map<Ref, Channel>, order: seq<Ref>, r: RouteRule)
    requires forall k :: 0 <= k < |order| ==> order[k] in channels
    requires r in FleetOf(env, channels, order).rules
    ensures r.action.ToChannel? && r.action.ref in FleetOf(env, channels, order).built
  {
    var i :| 0 <= i < |FleetOf(env, channels, order).rules| && FleetOf(env, channels, order).rules[i] == r;
    FleetTunnelsExist(env, channels, order, i);
  }

  /** Only user rules lead into tunnels. */
  lemma {:induction false} OnlyUserRulesTunnel(env: Env, t: Table, rules: seq<Rule>, r: RouteRule)
    requires r in TableRules(env, t, rules) && r.action.ToChannel?
    ensures r in CompileRules(env, t, rules)
  {
  }

  lemma {:induction false} TableRulesNameBuilt(env: Env, t: Table, rules: seq<Rule>, r: RouteRule)
    requires r in TableRules(env, t, rules) && r.action.ToChannel?
    ensures r.action.ref in t.built
  {
    var user := CompileRules(env, t, rules);
    OnlyUserRulesTunnel(env, t, rules, r);
    var i :| 0 <= i < |user| && user[i] == r;
    CompiledTunnelsExist(env, t, rules, i);
  }

  /** Every rule of the config that leads into a tunnel names a tunnel the config defines. */
  lemma {:induction false} NoDanglingTunnel(env: Env, s: State, order: seq<Ref>, r: RouteRule)
    requires Known(s, order) && r in ConfigOf(env, s, order).rules && r.action.ToChannel?
    ensures exists i :: 0 <= i < |ConfigOf(env, s, order).endpoints|
              && ConfigOf(env, s, order).endpoints[i].ref == r.action.ref
  {
    var fleet := FleetOf(env, s.channels, order);
    if r in fleet.rules {
      FleetRulesNameBuilt(env, s.channels, order, r);
    } else {
      TableRulesNameBuilt(env, TableOf(env, s.router, fleet), s.rules, r);
    }
    BuiltHasEndpoint(env, s.channels, order, r.action.ref);
  }

  /** A rule whose geo category is not cached blocks every connection that reaches it, matching or not. */
  lemma {:induction false} UncachedBlocksAll(env: Env, t: Table, before: seq<Rule>, r: Rule, after: seq<Rule>, f: Flow)
    requires Uncached(env, r.matcher) && UserVerdicts(env, t, before, f) == None
    ensures UserVerdicts(env, t, before + [r] + after, f) == Some(Reject)
  {
    if after == [] {
      assert before + [r] + after == before + [r];
      assert (before + [r])[..|before|] == before;
    } else {
      UncachedBlocksAll(env, t, before, r, after[..|after| - 1], f);
      var all := before + [r] + after;
      assert all[..|all| - 1] == before + [r] + after[..|after| - 1];
    }
  }

  /** A rule decides only connections its matcher matches, exactly when its geo category is cached (or it has none). */
  lemma {:induction false} DecidesOnlyItsOwnIff(env: Env, t: Table, r: Rule)
    requires t.entries != {}
    ensures (forall f: Flow | f.entry in t.entries ::
               Decide(env, CompileRule(env, t, r), f).Some? ==>
                 MatchDestination(env.parse, env.geo, r.matcher, f.Destination()))
            <==> !Uncached(env, r.matcher)
  {
    if Uncached(env, r.matcher) {
      var entry :| entry in t.entries;
      var nowhere := Flow(entry, false, 0, false, None, None);
      CompileRuleMeans(env, t, r, nowhere);
      assert Decide(env, CompileRule(env, t, r), nowhere).Some?;
    } else {
      forall f: Flow | f.entry in t.entries && Decide(env, CompileRule(env, t, r), f).Some?
        ensures MatchDestination(env.parse, env.geo, r.matcher, f.Destination())
      {
        CompileRuleMeans(env, t, r, f);
      }
    }
  }
}
