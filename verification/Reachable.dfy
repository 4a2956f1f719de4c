/** Every transaction keeps the standing invariants, so every state a run can reach has them. */
module Reachable {
  import opened Common
  import opened Routes
  import opened State
  import opened RulesetOps
  import opened RulesetMoves
  import opened RulesetOrder
  import opened Setup
  import opened Ports
  import opened ChannelIds
  import opened Operations
  import opened RulesPreserved
  import Sync = SyncSetup

  // ---- operations on the channels ----

  /** Every channel a rule names is still there and still enabled. */
  lemma {:induction false} ChannelsKeepTargets(before: map<Ref, Channel>, after: map<Ref, Channel>, rules: seq<Rule>)
    requires RestrictOnly(before, rules)
    requires forall i :: 0 <= i < |rules| && rules[i].target.Via? && rules[i].target.ref in before
               && before[rules[i].target.ref].enabled
               ==> rules[i].target.ref in after && after[rules[i].target.ref].enabled
    ensures RestrictOnly(after, rules)
  {
    forall i | 0 <= i < |rules| ensures TargetOk(after, rules[i].target) {
      assert TargetOk(before, rules[i].target);
    }
  }

  /** Same channels, same ports, nobody disabled. */
  ghost predicate SameShape(before: map<Ref, Channel>, after: map<Ref, Channel>) {
    && after.Keys == before.Keys
    && forall a <- before.Keys :: after[a].port == before[a].port && (before[a].enabled ==> after[a].enabled)
  }

  lemma {:induction false} SameShapeKeeps(s: State, channels: map<Ref, Channel>)
    requires Inv(s) && SameShape(s.channels, channels)
    ensures Inv(s.(channels := channels))
  {
    ChannelsKeepTargets(s.channels, channels, s.rules);
  }

  lemma {:induction false} RemoveProvidersKeeps(s: State, providers: seq<string>)
    requires Inv(s) && RemoveProviders(s, providers).Ok?
    ensures Inv(RemoveProviders(s, providers).value)
  {
    var refs := ChannelsOf(s.channels, providers);
    ChannelsKeepTargets(s.channels, s.channels - refs, s.rules);
  }

  lemma {:induction false} SetChannelKeeps(s: State, ref: Ref, ch: Channel)
    requires Inv(s) && ref.provider in s.providers
    requires (ref in s.channels && ch.port == s.channels[ref].port) || ch.port !in OtherPorts(s.channels, s.router, ref)
    requires ref in s.channels && s.channels[ref].enabled ==> ch.enabled
    ensures Inv(s.(channels := s.channels[ref := ch]))
  {
    SetChannelKeepsPorts(s.channels, s.router, ref, ch);
    ChannelsKeepTargets(s.channels, s.channels[ref := ch], s.rules);
  }

  lemma {:induction false} UnusedByOthers(channels: map<Ref, Channel>, router: Router, ref: Ref, port: nat)
    requires port !in UsedPorts(channels, router)
    ensures port !in OtherPorts(channels, router, ref)
  {
    assert forall a :: a in channels - {ref} ==> a in channels && (channels - {ref})[a] == channels[a];
  }

  lemma {:induction false} AddChannelKeeps(s: State, spec: ChannelSpec, base: string, offers: seq<nat>)
    requires Inv(s) && AddChannel(s, spec, base, offers).Ok?
    ensures Inv(AddChannel(s, spec, base, offers).value)
    ensures var t := AddChannel(s, spec, base, offers).value;
            exists ref :: ref !in s.channels && t.channels.Keys == s.channels.Keys + {ref}
  {
    var provider := spec.ref.provider;
    var taken := ChannelIdsOf(s.channels, provider);
    NextNumberIsLeastFree(taken, base, 1);
    var ref := Ref(provider, Candidate(base, NextNumber(taken, base, 1)));
    assert forall a <- s.channels.Keys :: a.provider == provider ==> a.cid in taken;
    var port := if spec.port != 0 then spec.port else offers[0];
    UnusedByOthers(s.channels, s.router, ref, port);
    SetChannelKeeps(s, ref, NewChannel(spec, port, true, false));
    assert AddChannel(s, spec, base, offers).value.channels.Keys == s.channels.Keys + {ref};
  }

  lemma {:induction false} UpsertChannelKeeps(s: State, spec: ChannelSpec, offers: seq<nat>)
    requires Inv(s) && UpsertChannel(s, spec, offers).Ok?
    ensures Inv(UpsertChannel(s, spec, offers).value)
  {
    var ch := UpsertChannel(s, spec, offers).value.channels[spec.ref];
    if spec.ref !in s.channels && spec.port == 0 {
      UnusedByOthers(s.channels, s.router, spec.ref, offers[0]);
    }
    SetChannelKeeps(s, spec.ref, ch);
  }

  lemma {:induction false} SetEnabledKeeps(s: State, refs: seq<Ref>, enabled: bool, expected: map<Ref, Channel>)
    requires Inv(s) && SetEnabled(s, refs, enabled, expected).Ok?
    ensures Inv(SetEnabled(s, refs, enabled, expected).value)
  {
    ChannelsKeepTargets(s.channels, ToggleAll(s.channels, RefSet(refs), enabled), s.rules);
  }

  // ---- ports ----

  lemma {:induction false} ReallocateKeeps(s: State, ports: set<nat>, order: seq<Ref>, offers: seq<nat>)
    requires Inv(s) && forall i :: 0 <= i < |order| ==> order[i] in s.channels
    requires ReallocatePorts(s, ports, order, offers).Ok?
    ensures Inv(ReallocatePorts(s, ports, order, offers).value)
  {
    var start := Reallocation(s.channels, offers, [], []);
    var m := ReallocateAll(start, s.router, ports, order).value;
    ReallocateAllKeepsPorts(start, s.router, ports, order);
    ReallocateRouterKeepsPorts(m.channels, s.router, ports, m.offers);
    ReallocateAllEnabled(start, s.router, ports, order);
    ChannelsKeepTargets(s.channels, m.channels, s.rules);
  }

  lemma {:induction false} ReallocateAllEnabled(r: Reallocation, router: Router, ports: set<nat>, order: seq<Ref>)
    requires forall i :: 0 <= i < |order| ==> order[i] in r.channels
    requires ReallocateAll(r, router, ports, order).Ok?
    ensures forall a <- r.channels.Keys :: ReallocateAll(r, router, ports, order).value.channels[a].enabled
              == r.channels[a].enabled
  {
    if order != [] {
      ReallocateAllEnabled(r, router, ports, order[..|order| - 1]);
    }
  }

  lemma {:induction false} RestoreHomeKeeps(s: State, order: seq<Ref>, osFree: nat -> bool)
    requires Inv(s) && forall i :: 0 <= i < |order| ==> order[i] in s.channels
    ensures Inv(RestoreHomePorts(s, order, osFree))
  {
    var start := Homing(s.channels, UsedPorts(s.channels, s.router), []);
    var h := HomeAll(start, osFree, order);
    HomeAllKeepsPorts(start, s.router, osFree, order);
    HomeRouterKeepsPorts(h.channels, s.router, h.used, osFree);
    forall a <- s.channels.Keys ensures HomeOrKept(s.channels[a], h.channels[a], osFree) {
      HomeAllMoves(start, osFree, order, a);
    }
    ChannelsKeepTargets(s.channels, h.channels, s.rules);
  }

  lemma {:induction false} EnsureRouterPortKeeps(s: State, offers: seq<nat>)
    requires Inv(s) && EnsureRouterPort(s, offers).Ok?
    ensures Inv(EnsureRouterPort(s, offers).value)
  {
    if s.router.port == 0 {
      forall a <- s.channels.Keys | s.channels[a].port != 0 ensures s.channels[a].port != offers[0] {
        assert s.channels[a].port in UsedPorts(s.channels, s.router);
      }
    }
  }

  // ---- bundles ----

  lemma {:induction false} MergeTargets(s: State, b: Bundle, offers: seq<nat>, u: Upserts)
    requires RestrictOnly(s.channels, s.rules) && !References(s.rules, Disabling(s.channels, b.channels))
    requires UpsertAll(Upserts(s.channels, offers, []), s.router, b.channels, false) == Ok(u)
    ensures RestrictOnly(u.channels, s.rules)
  {
    forall i | 0 <= i < |s.rules| ensures TargetOk(u.channels, s.rules[i].target) {
      assert TargetOk(s.channels, s.rules[i].target);
      if s.rules[i].target.Via? {
        Sync.OnlyExplicitDisables(Upserts(s.channels, offers, []), s.router, b.channels, false, s.rules[i].target.ref);
        Sync.NotDisabling(s.channels, b.channels, s.rules, i);
      }
    }
  }

  lemma {:induction false} MergeKeeps(s: State, b: Bundle, offers: seq<nat>)
    requires Inv(s) && WellFormedBundle(b) && MergeSetup(s, b, offers).Ok?
    ensures Inv(MergeSetup(s, b, offers).value)
  {
    var start := Upserts(s.channels, offers, []);
    var u := UpsertAll(start, s.router, b.channels, false).value;
    UpsertAllKeepsPorts(start, s.router, b.channels, false);
    RouterAfterKeepsPorts(u.channels, s.router, b, false);
    MergeTargets(s, b, offers, u);
    AppendKeeps(u.channels, s.rules, b.rulesets);
    UpsertAllFrame(start, s.router, b.channels, false);
    DeclaredProviders(s.providers, u.channels, s.channels.Keys, b);
  }

  /** Channels that were there, or are declared, have their provider after a merge. */
  lemma {:induction false} DeclaredProviders(providers: map<string, bool>, channels: map<Ref, Channel>, old_: set<Ref>,
                                             b: Bundle)
    requires WellFormedBundle(b) && channels.Keys <= old_ + BundleRefs(b.channels)
             && forall a <- old_ :: a.provider in providers
    ensures ProvidersExist(MergedProviders(providers, b.providers), channels)
  {
    forall a <- channels.Keys ensures a.provider in MergedProviders(providers, b.providers) {
      if a !in old_ {
        var i :| 0 <= i < |b.channels| && b.channels[i].ref == a;
        assert b.channels[i].ref.provider in b.providers;
      }
    }
  }

  /** What bundle validation guarantees of a bundle that replaces the whole setup: a ruleset targets a channel of
      the bundle that the bundle does not disable. */
  ghost predicate Validated(b: Bundle) {
    && WellFormedBundle(b)
    && forall i :: 0 <= i < |b.rulesets| && b.rulesets[i].target.Via? ==>
         exists j :: 0 <= j < |b.channels| && b.channels[j].ref == b.rulesets[i].target.ref
           && b.channels[j].enabled != Some(false)
  }

  lemma {:induction false} RestoredAt(old_: map<Ref, Channel>, specs: seq<ChannelSpec>, j: nat)
    requires forall a, b :: 0 <= a < b < |specs| ==> specs[a].ref != specs[b].ref
    requires j < |specs|
    ensures specs[j].ref in RestoredChannels(old_, specs)
    ensures RestoredChannels(old_, specs)[specs[j].ref] == RestoredChannel(old_, specs[j])
  {
    if j < |specs| - 1 {
      assert specs[j].ref != specs[|specs| - 1].ref;
      RestoredAt(old_, specs[..|specs| - 1], j);
    }
  }

  lemma {:induction false} FillOne(channels: map<Ref, Channel>, router: Router, ref: Ref, port: nat)
    requires DistinctPorts(channels, router) && ref in channels && port !in UsedPorts(channels, router)
    ensures DistinctPorts(channels[ref := channels[ref].(port := port)], router)
  {
    UnusedByOthers(channels, router, ref, port);
    SetChannelKeepsPorts(channels, router, ref, channels[ref].(port := port));
  }

  /** What handing out ports did to the records. */
  ghost predicate OnlyFilled(before: map<Ref, Channel>, after: map<Ref, Channel>) {
    && after.Keys == before.Keys
    && (forall a <- before.Keys :: after[a] == before[a].(port := after[a].port))
    && (forall a <- before.Keys :: before[a].port != 0 ==> after[a] == before[a])
  }

  lemma {:induction false} OnlyFilledOneMore(before: map<Ref, Channel>, after: map<Ref, Channel>, ref: Ref, port: nat)
    requires OnlyFilled(before, after) && ref in before && after[ref].port == 0
    ensures OnlyFilled(before, after[ref := after[ref].(port := port)])
  {
  }

  lemma {:induction false} FillOneMore(channels: map<Ref, Channel>, filled: map<Ref, Channel>, router: Router,
                                       ref: Ref, port: nat)
    requires DistinctPorts(filled, router) && OnlyFilled(channels, filled)
    requires ref in channels && filled[ref].port == 0 && port !in UsedPorts(filled, router)
    ensures var more := filled[ref := filled[ref].(port := port)];
            DistinctPorts(more, router) && OnlyFilled(channels, more)
  {
    FillOne(filled, router, ref, port);
    OnlyFilledOneMore(channels, filled, ref, port);
  }

  /** Handing out fresh ports changes ports of portless channels only, and keeps ports distinct. */
  lemma {:induction false} FillPortsKeeps(channels: map<Ref, Channel>, router: Router, specs: seq<ChannelSpec>,
                                          offers: seq<nat>)
    requires forall i :: 0 <= i < |specs| ==> specs[i].ref in channels
    requires DistinctPorts(channels, router) && FillPorts(channels, router, specs, offers).Ok?
    ensures var filled := FillPorts(channels, router, specs, offers).value.0;
            DistinctPorts(filled, router) && OnlyFilled(channels, filled)
  {
    if specs != [] {
      var front, ref := specs[..|specs| - 1], specs[|specs| - 1].ref;
      FillPortsKeeps(channels, router, front, offers);
      var (filled, left) := FillPorts(channels, router, front, offers).value;
      assert specs == front + [specs[|specs| - 1]];
      if filled[ref].port == 0 {
        FillOneMore(channels, filled, router, ref, left[0]);
      }
    }
  }

  /** Afterwards every declared channel has a port. */
  lemma {:induction false} FillPortsFills(channels: map<Ref, Channel>, router: Router, specs: seq<ChannelSpec>,
                                          offers: seq<nat>, i: nat)
    requires forall i :: 0 <= i < |specs| ==> specs[i].ref in channels
    requires FillPorts(channels, router, specs, offers).Ok? && i < |specs|
    ensures FillPorts(channels, router, specs, offers).value.0[specs[i].ref].port != 0
  {
    if i < |specs| - 1 {
      FillPortsFills(channels, router, specs[..|specs| - 1], offers, i);
    }
  }

  lemma {:induction false} RestoreKeeps(s: State, b: Bundle, killswitch: bool, lanDirect: bool, offers: seq<nat>)
    requires Validated(b) && RestoreSetup(s, b, killswitch, lanDirect, offers).Ok?
    ensures Inv(RestoreSetup(s, b, killswitch, lanDirect, offers).value)
  {
    RestoredHas(s.channels, b.channels);
    var channels := RestoredChannels(s.channels, b.channels);
    var router := if b.routerPort != 0 then s.router.(port := b.routerPort, portExplicit := true) else s.router;
    FillPortsKeeps(channels, router, b.channels, offers);
    var filled := FillPorts(channels, router, b.channels, offers).value.0;
    forall i | 0 <= i < |b.rulesets| ensures TargetOk(filled, b.rulesets[i].target) {
      if b.rulesets[i].target.Via? {
        var j :| 0 <= j < |b.channels| && b.channels[j].ref == b.rulesets[i].target.ref
            && b.channels[j].enabled != Some(false);
        RestoredAt(s.channels, b.channels, j);
      }
    }
    RestoredKeeps(filled, b.rulesets);
    DeclaredProviders(map[], filled, {}, b);
  }

  // ---- runs ----

  datatype RuleEdit =
    | Create(name: string, target: Target, matchers: seq<Matcher>)
    | Add(rs: Id, matchers: seq<Matcher>)
    | Remove(rs: Id)
    | Rename(rs: Id, name: string)
    | Retarget(rs: Id, target: Target)
    | Update(rs: Id, name: string, target: Target, matchers: seq<Matcher>, expected: Option<RulesetBlock>)
    | RemoveRows(ids: seq<Id>)
    | MoveInto(ids: seq<Id>, rs: Id)
    | ReorderRows(ids: seq<Id>)
    | ReorderBlocks(ids: seq<Id>, known: Option<seq<Id>>)

  datatype SetupEdit =
    | ProviderAdded(provider: string)
    | ProvidersRemoved(providers: seq<string>)
    | ChannelAdded(spec: ChannelSpec, base: string, offers: seq<nat>)
    | ChannelUpserted(spec: ChannelSpec, offers: seq<nat>)
    | ChannelsRemoved(refs: seq<Ref>)
    | ChannelsToggled(refs: seq<Ref>, enabled: bool, expected: map<Ref, Channel>)
    | NoteWritten(ref: Ref, note: Note, known: Option<Channel>)
    | KeysReplaced(provider: string, keys: map<string, Wg>)
    | ReconnectsCleared
    | SwitchSet(toggle: Toggle, on: bool)

  datatype Op =
    | Rules(edit: RuleEdit)
    | Channels(change: SetupEdit)
    | RouterPort(offers: seq<nat>)
    | Reallocate(ports: set<nat>, order: seq<Ref>, offers: seq<nat>)
    | RestoreHome(order: seq<Ref>, osFree: nat -> bool)
    | Merge(bundle: Bundle, offers: seq<nat>)
    | SyncWith(bundle: Bundle, offers: seq<nat>)
    | Restore(bundle: Bundle, killswitch: bool, lanDirect: bool, offers: seq<nat>)

  function EditRules(s: State, e: RuleEdit): Result<State, string> {
    match e
    case Create(name, target, matchers) => CreateRuleset(s, name, target, matchers)
    case Add(rs, matchers) => AddMatchers(s, rs, matchers)
    case Remove(rs) => RemoveRuleset(s, rs)
    case Rename(rs, name) => RenameRuleset(s, rs, name)
    case Retarget(rs, target) => RetargetRuleset(s, rs, target)
    case Update(rs, name, target, matchers, expected) => UpdateRuleset(s, rs, name, target, matchers, expected)
    case RemoveRows(ids) => Ok(RemoveRules(s, ids))
    case MoveInto(ids, rs) => MoveRules(s, ids, rs)
    case ReorderRows(ids) => ReorderRules(s, ids)
    case ReorderBlocks(ids, known) => ReorderRulesets(s, ids, known)
  }

  function EditSetup(s: State, e: SetupEdit): Result<State, string> {
    match e
    case ProviderAdded(p) => Ok(AddProvider(s, p))
    case ProvidersRemoved(ps) => RemoveProviders(s, ps)
    case ChannelAdded(spec, base, offers) => AddChannel(s, spec, base, offers)
    case ChannelUpserted(spec, offers) => UpsertChannel(s, spec, offers)
    case ChannelsRemoved(refs) => RemoveChannels(s, refs)
    case ChannelsToggled(refs, enabled, expected) => SetEnabled(s, refs, enabled, expected)
    case NoteWritten(ref, note, known) => WriteNote(s, ref, note, known)
    case KeysReplaced(provider, keys) => Ok(ReplaceKeys(s, provider, keys))
    case ReconnectsCleared => Ok(ClearReconnects(s))
    case SwitchSet(toggle, on) => Ok(SetToggle(s, toggle, on))
  }

  /** What callers guarantee: bundles are validated, and port recovery visits the channels there are. */
  ghost predicate Callable(s: State, op: Op) {
    match op
    case Merge(b, _) => WellFormedBundle(b)
    case SyncWith(b, _) => WellFormedBundle(b)
    case Restore(b, _, _, _) => Validated(b)
    case Reallocate(_, order, _) => Enumerates(order, s.channels.Keys)
    case RestoreHome(order, _) => Enumerates(order, s.channels.Keys)
    case _ => true
  }

  function SyncedState(s: State, b: Bundle, offers: seq<nat>): Result<State, string> {
    match Sync.SyncSetup(s, b, offers)
    case Ok((t, _)) => Ok(t)
    case Err(e) => Err(e)
  }

  ghost function Apply(s: State, op: Op): Result<State, string>
    requires Callable(s, op)
  {
    match op
    case Rules(e) => EditRules(s, e)
    case Channels(e) => EditSetup(s, e)
    case RouterPort(offers) => EnsureRouterPort(s, offers)
    case Reallocate(ports, order, offers) => ReallocatePorts(s, ports, order, offers)
    case RestoreHome(order, osFree) => Ok(RestoreHomePorts(s, order, osFree))
    case Merge(b, offers) => MergeSetup(s, b, offers)
    case SyncWith(b, offers) => SyncedState(s, b, offers)
    case Restore(b, killswitch, lanDirect, offers) => RestoreSetup(s, b, killswitch, lanDirect, offers)
  }

  lemma {:induction false} ReorderRulesKeeps(s: State, ids: seq<Id>)
    requires Inv(s) && ReorderRules(s, ids).Ok?
    ensures Inv(ReorderRules(s, ids).value)
  {
    PermutationNamesRows(s.rules, ids);
    ReorderConserves(s.rules, ids);
    SameRowsKeepTargets(s.channels, s.rules, RowsById(s.rules, ids));
  }

  lemma {:induction false} ReorderRulesetsKeeps(s: State, ids: seq<Id>, known: Option<seq<Id>>)
    requires Inv(s) && ReorderRulesets(s, ids, known).Ok?
    ensures Inv(ReorderRulesets(s, ids, known).value)
  {
    PermutationNamesBlocks(Runs(s.rules), ids);
    ReorderRulesetsConserves(s.rules, ids);
    SameRowsKeepTargets(s.channels, s.rules, Flatten(PermuteBlocks(Runs(s.rules), ids)));
  }

  lemma {:induction false} AddMatchersKeeps(s: State, rs: Id, matchers: seq<Matcher>)
    requires Inv(s) && AddMatchers(s, rs, matchers).Ok?
    ensures Inv(AddMatchers(s, rs, matchers).value)
  {
    FlattenRuns(s.rules);
    AddKeeps(s.channels, s.rules, rs, matchers);
  }

  lemma {:induction false} MoveRulesKeeps(s: State, ids: seq<Id>, rs: Id)
    requires Inv(s) && MoveRules(s, ids, rs).Ok?
    ensures Inv(MoveRules(s, ids, rs).value)
  {
    FlattenRuns(s.rules);
    MoveKeeps(s.channels, s.rules, Dedup(ids), rs);
    RulesReplaced(s, MoveRules(s, ids, rs).value.rules);
  }

  /** Good rules in place of good rules keep every invariant. */
  lemma {:induction false} RulesReplaced(s: State, rules: seq<Rule>)
    requires Inv(s) && GoodRules(s.channels, rules)
    ensures Inv(s.(rules := rules))
  {
  }

  /** One successful rule edit keeps every invariant. */
  lemma {:induction false} EditRulesKeeps(s: State, e: RuleEdit)
    requires Inv(s) && EditRules(s, e).Ok?
    ensures Inv(EditRules(s, e).value)
  {
    match e
    case Create(name, target, matchers) => CreateKeeps(s.channels, s.rules, name, target, matchers);
    case Add(rs, matchers) => AddMatchersKeeps(s, rs, matchers);
    case Remove(rs) => FilterKeeps(s.channels, Outside(rs), s.rules);
    case Rename(rs, name) => RenameKeeps(s.channels, s.rules, rs, name);
    case Retarget(rs, target) => RetargetKeeps(s.channels, s.rules, rs, target);
    case Update(rs, name, target, matchers, _) => UpdateKeeps(s.channels, s.rules, rs, name, target, matchers);
    case RemoveRows(ids) => FilterKeeps(s.channels, NotNamed(SetOf(ids)), s.rules);
    case MoveInto(ids, rs) => MoveRulesKeeps(s, ids, rs);
    case ReorderRows(ids) => ReorderRulesKeeps(s, ids);
    case ReorderBlocks(ids, known) => ReorderRulesetsKeeps(s, ids, known);
  }

  lemma {:induction false} RemoveChannelsKeeps(s: State, refs: seq<Ref>)
    requires Inv(s) && RemoveChannels(s, refs).Ok?
    ensures Inv(RemoveChannels(s, refs).value)
  {
    ChannelsKeepTargets(s.channels, s.channels - RefSet(refs), s.rules);
  }

  lemma {:induction false} WriteNoteKeeps(s: State, ref: Ref, note: Note, known: Option<Channel>)
    requires Inv(s) && WriteNote(s, ref, note, known).Ok?
    ensures Inv(WriteNote(s, ref, note, known).value)
  {
    SameShapeKeeps(s, WriteNote(s, ref, note, known).value.channels);
  }

  lemma {:induction false} ReplaceKeysKeeps(s: State, provider: string, keys: map<string, Wg>)
    requires Inv(s)
    ensures Inv(ReplaceKeys(s, provider, keys))
  {
    SameShapeKeeps(s, ReplaceKeys(s, provider, keys).channels);
  }

  lemma {:induction false} ClearReconnectsKeeps(s: State)
    requires Inv(s)
    ensures Inv(ClearReconnects(s))
  {
    SameShapeKeeps(s, WithoutRecoveries(s.channels));
  }

  lemma {:induction false} AddProviderKeeps(s: State, p: string)
    requires Inv(s)
    ensures Inv(AddProvider(s, p))
  {
  }

  lemma {:induction false} SetToggleKeeps(s: State, toggle: Toggle, on: bool)
    requires Inv(s)
    ensures Inv(SetToggle(s, toggle, on))
  {
  }

  /** One successful edit of providers, channels or toggles keeps every invariant. */
  lemma {:induction false} EditSetupKeeps(s: State, e: SetupEdit)
    requires Inv(s) && EditSetup(s, e).Ok?
    ensures Inv(EditSetup(s, e).value)
  {
    if e.ChannelAdded? || e.ChannelUpserted? || e.ChannelsRemoved? || e.ChannelsToggled? {
      EditChannelsKeeps(s, e);
    } else {
      EditRestKeeps(s, e);
    }
  }

  lemma {:induction false} EditChannelsKeeps(s: State, e: SetupEdit)
    requires Inv(s) && EditSetup(s, e).Ok?
             && (e.ChannelAdded? || e.ChannelUpserted? || e.ChannelsRemoved? || e.ChannelsToggled?)
    ensures Inv(EditSetup(s, e).value)
  {
    match e
    case ChannelAdded(spec, base, offers) => AddChannelKeeps(s, spec, base, offers);
    case ChannelUpserted(spec, offers) => UpsertChannelKeeps(s, spec, offers);
    case ChannelsRemoved(refs) => RemoveChannelsKeeps(s, refs);
    case ChannelsToggled(refs, enabled, expected) => SetEnabledKeeps(s, refs, enabled, expected);
  }

  lemma {:induction false} EditRestKeeps(s: State, e: SetupEdit)
    requires Inv(s) && EditSetup(s, e).Ok?
             && !(e.ChannelAdded? || e.ChannelUpserted? || e.ChannelsRemoved? || e.ChannelsToggled?)
    ensures Inv(EditSetup(s, e).value)
  {
    match e
    case ProviderAdded(p) => AddProviderKeeps(s, p);
    case ProvidersRemoved(ps) => RemoveProvidersKeeps(s, ps);
    case NoteWritten(ref, note, known) => WriteNoteKeeps(s, ref, note, known);
    case KeysReplaced(provider, keys) => ReplaceKeysKeeps(s, provider, keys);
    case ReconnectsCleared => ClearReconnectsKeeps(s);
    case SwitchSet(toggle, on) => SetToggleKeeps(s, toggle, on);
  }

  /** One successful transaction keeps every invariant. */
  lemma {:induction false} ApplyKeeps(s: State, op: Op)
    requires Inv(s) && Callable(s, op) && Apply(s, op).Ok?
    ensures Inv(Apply(s, op).value)
  {
    match op
    case Rules(e) => EditRulesKeeps(s, e);
    case Channels(e) => EditSetupKeeps(s, e);
    case RouterPort(offers) => EnsureRouterPortKeeps(s, offers);
    case Reallocate(ports, order, offers) => ReallocateKeeps(s, ports, order, offers);
    case RestoreHome(order, osFree) => RestoreHomeKeeps(s, order, osFree);
    case Merge(b, offers) => MergeKeeps(s, b, offers);
    case SyncWith(b, offers) => Sync.SyncKeepsInv(s, b, offers);
    case Restore(b, killswitch, lanDirect, offers) => RestoreKeeps(s, b, killswitch, lanDirect, offers);
  }

  /** A failed transaction writes nothing. */
  ghost function Committed(s: State, op: Op): State
    requires Callable(s, op)
  {
    if Apply(s, op).Ok? then Apply(s, op).value else s
  }

  ghost predicate Run(states: seq<State>, ops: seq<Op>) {
    && |states| == |ops| + 1
    && states[0] == BLANK
    && forall i :: 0 <= i < |ops| ==> Callable(states[i], ops[i]) && states[i + 1] == Committed(states[i], ops[i])
  }

  /** Every state of every run from the blank file: grouped rulesets, unique ids, restrict-only, distinct ports. */
  lemma {:induction false} RunsKeepInv(states: seq<State>, ops: seq<Op>, n: nat)
    requires Run(states, ops) && n <= |ops|
    ensures Inv(states[n])
  {
    if n > 0 {
      RunsKeepInv(states, ops, n - 1);
      assert states[n - 1 + 1] == Committed(states[n - 1], ops[n - 1]);
      if Apply(states[n - 1], ops[n - 1]).Ok? {
        ApplyKeeps(states[n - 1], ops[n - 1]);
      }
    }
  }
}
