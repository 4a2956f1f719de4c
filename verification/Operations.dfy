/** Every transaction on the committed state: what it commits, or the error that leaves the state as it was. Each is a
    function of the state and of whatever the outside world decides. */
module Operations {
  import opened Common
  import opened Routes
  import opened State
  import opened RulesetOps
  import opened RulesetMoves
  import opened RulesetOrder
  import opened Setup
  import opened Ports
  import opened ChannelIds

  // ---- optimistic locking ----

  /** A revision is a digest of committed content, so it stands for that content; expecting none always passes. */
  predicate Expected<T(==)>(expected: Option<T>, current: Option<T>) {
    expected.Some? ==> expected == current
  }

  /** The daemon's own records are no part of what a client read and means to change. */
  function Intent(ch: Channel): Channel {
    ch.(probe := None, reconnect := None)
  }

  function ChannelRevision(channels: map<Ref, Channel>, ref: Ref): Option<Channel> {
    if ref in channels then Some(Intent(channels[ref])) else None
  }

  function RulesetRevision(rules: seq<Rule>, rs: Id): Option<RulesetBlock>
    requires Grouped(rules)
  {
    FlattenRuns(rules);
    if HasBlock(Runs(rules), rs) then Some(BlockById(Runs(rules), rs)) else None
  }

  // ---- providers ----

  function AddProvider(s: State, p: string): State {
    if p in s.providers then s else s.(providers := s.providers[p := false])
  }

  function ChannelsOf(channels: map<Ref, Channel>, providers: seq<string>): set<Ref> {
    set a | a in channels && a.provider in providers
  }

  function RemoveProviders(s: State, providers: seq<string>): Result<State, string> {
    var refs := ChannelsOf(s.channels, providers);
    if References(s.rules, refs) then Err("referenced")
    else Ok(s.(providers := s.providers - (set p | p in providers), channels := s.channels - refs))
  }

  // ---- channels ----

  function ChannelIdsOf(channels: map<Ref, Channel>, provider: string): set<string> {
    set a | a in channels && a.provider == provider :: a.cid
  }

  /** `spec.ref.provider` is the provider asked for; the id is minted from `base`. */
  function AddChannel(s: State, spec: ChannelSpec, base: string, offers: seq<nat>): Result<State, string> {
    var provider := spec.ref.provider;
    if provider !in s.providers then Err("provider is not added")
    else
      var ref := Ref(provider, Candidate(base, NextNumber(ChannelIdsOf(s.channels, provider), base, 1)));
      if spec.port != 0 then
        if ValidPort(spec.port) && spec.port !in UsedPorts(s.channels, s.router)
        then Ok(s.(channels := s.channels[ref := NewChannel(spec, spec.port, true, false)]))
        else Err("port in use")
      else if OfferOk(s.channels, s.router, offers)
      then Ok(s.(channels := s.channels[ref := NewChannel(spec, offers[0], true, false)]))
      else Err("no free port")
  }

  /** A re-import replaces keys and location; the server pin, the port unless declared, and the probe stay. */
  function Reimported(ch: Channel, spec: ChannelSpec): Channel {
    ch.(country := spec.country, city := spec.city, wg := spec.wg,
        port := if spec.port != 0 then spec.port else ch.port,
        portExplicit := if spec.port != 0 then true else ch.portExplicit,
        title := if spec.title != "" then spec.title else ch.title,
        reconnect := None)
  }

  function UpsertChannel(s: State, spec: ChannelSpec, offers: seq<nat>): Result<State, string> {
    if spec.ref.provider !in s.providers then Err("provider is not added")
    else if spec.ref !in s.channels then
      if spec.port != 0 then
        if ClaimOk(s.channels, s.router, spec.port, spec.ref)
        then Ok(s.(channels := s.channels[spec.ref := NewChannel(spec.(server := ""), spec.port, true, false)]))
        else Err("port in use")
      else if OfferOk(s.channels, s.router, offers)
      then Ok(s.(channels := s.channels[spec.ref := NewChannel(spec.(server := ""), offers[0], true, false)]))
      else Err("no free port")
    else
      var ch := s.channels[spec.ref];
      if spec.port != 0 && spec.port != ch.port && !ClaimOk(s.channels, s.router, spec.port, spec.ref)
          then Err("port in use")
      else Ok(s.(channels := s.channels[spec.ref := Reimported(ch, spec)]))
  }

  function RefSet(refs: seq<Ref>): set<Ref> {
    set a | a in refs
  }

  function RemoveChannels(s: State, refs: seq<Ref>): Result<State, string> {
    if References(s.rules, RefSet(refs)) then Err("referenced")
    else Ok(s.(channels := s.channels - RefSet(refs)))
  }

  function Toggled(ch: Channel, enabled: bool): Channel {
    if ch.enabled == enabled then ch
    else if enabled then ch.(enabled := true)
    else ch.(enabled := false, probe := None, reconnect := None)
  }

  function ToggleAll(channels: map<Ref, Channel>, refs: set<Ref>, enabled: bool): map<Ref, Channel> {
    map a | a in channels :: if a in refs then Toggled(channels[a], enabled) else channels[a]
  }

  function SetEnabled(s: State, refs: seq<Ref>, enabled: bool, expected: map<Ref, Channel>): Result<State, string> {
    if exists a <- expected.Keys :: !Expected(Some(expected[a]), ChannelRevision(s.channels, a))
        then Err("changed since it was read")
    else if !enabled && References(s.rules, RefSet(refs)) then Err("referenced")
    else Ok(s.(channels := ToggleAll(s.channels, RefSet(refs), enabled)))
  }

  /** Writes to one channel's label, pin, keys, probe or reconnect record: port, state and provenance stay. */
  datatype Note =
    | SetLabel(title: string)
    | SetServer(server: string, country: string, city: string, keys: Option<Wg>)
    | SetKeys(wg: Wg)
    | SetProbe(probe: Probe)
    | SetReconnect(record: Option<Recovery>)
    | FinishAttempt(outcome: Recovery, newKeys: Option<Wg>)

  function Noted(ch: Channel, note: Note): Channel {
    match note
    case SetLabel(title) => ch.(title := title)
    case SetServer(server, country, city, keys) =>
      if server == "" then ch.(server := "", reconnect := None)
      else ch.(server := server, country := country, city := city,
               wg := if keys.Some? then keys.value else ch.wg, reconnect := None)
    case SetKeys(wg) => ch.(wg := wg)
    case SetProbe(probe) => ch.(probe := Some(probe))
    case SetReconnect(record) => ch.(reconnect := record)
    case FinishAttempt(outcome, newKeys) =>
      ch.(wg := if newKeys.Some? then newKeys.value else ch.wg, reconnect := Some(outcome))
  }

  /** A channel that is gone is left alone. */
  function WriteNote(s: State, ref: Ref, note: Note, expected: Option<Channel>): Result<State, string> {
    if !Expected(expected, ChannelRevision(s.channels, ref)) then Err("changed since it was read")
    else if ref !in s.channels then Ok(s)
    else Ok(s.(channels := s.channels[ref := Noted(s.channels[ref], note)]))
  }

  /** New keys for the named channels of one provider; the provider's recovery records go, named or not. */
  function Rekeyed(channels: map<Ref, Channel>, provider: string, keys: map<string, Wg>): map<Ref, Channel> {
    map a | a in channels ::
      if a.provider != provider then channels[a]
      else channels[a].(wg := if a.cid in keys then keys[a.cid] else channels[a].wg, reconnect := None)
  }

  function ReplaceKeys(s: State, provider: string, keys: map<string, Wg>): State {
    s.(channels := Rekeyed(s.channels, provider, keys))
  }

  function WithoutRecoveries(channels: map<Ref, Channel>): map<Ref, Channel> {
    map a | a in channels :: channels[a].(reconnect := None)
  }

  function ClearReconnects(s: State): State {
    s.(channels := WithoutRecoveries(s.channels))
  }

  // ---- ports ----

  function EnsureRouterPort(s: State, offers: seq<nat>): Result<State, string> {
    if s.router.port != 0 then Ok(s)
    else if OfferOk(s.channels, s.router, offers) then Ok(s.(router := s.router.(port := offers[0])))
    else Err("no free port")
  }

  function ReallocatePorts(s: State, ports: set<nat>, order: seq<Ref>, offers: seq<nat>): Result<State, string>
    requires forall i :: 0 <= i < |order| ==> order[i] in s.channels
  {
    match ReallocateAll(Reallocation(s.channels, offers, [], []), s.router, ports, order)
    case Err(e) => Err(e)
    case Ok(m) =>
      match ReallocateRouter(m.channels, s.router, ports, m.offers)
      case Err(e) => Err(e)
      case Ok((router, _)) => Ok(s.(channels := m.channels, router := router))
  }

  /** What moved, what is declared and therefore held, and what happened to the router's port. */
  function ReallocationReport(s: State, ports: set<nat>, order: seq<Ref>, offers: seq<nat>):
    (seq<(Ref, nat, nat)>, seq<(Ref, nat)>, RouterMove)
    requires forall i :: 0 <= i < |order| ==> order[i] in s.channels
    requires ReallocatePorts(s, ports, order, offers).Ok?
  {
    var m := ReallocateAll(Reallocation(s.channels, offers, [], []), s.router, ports, order).value;
    (m.moved, m.held, ReallocateRouter(m.channels, s.router, ports, m.offers).value.1)
  }

  /** The channel ports put back, and whether the router's port was. */
  function HomecomingReport(s: State, order: seq<Ref>, osFree: nat -> bool): (seq<(Ref, nat)>, bool)
    requires forall i :: 0 <= i < |order| ==> order[i] in s.channels
  {
    var h := HomeAll(Homing(s.channels, UsedPorts(s.channels, s.router), []), osFree, order);
    (h.restored, CanGoHome(s.router.port, s.router.portExplicit, s.router.portHome, h.used, osFree))
  }

  function RestoreHomePorts(s: State, order: seq<Ref>, osFree: nat -> bool): State
    requires forall i :: 0 <= i < |order| ==> order[i] in s.channels
  {
    var h := HomeAll(Homing(s.channels, UsedPorts(s.channels, s.router), []), osFree, order);
    s.(channels := h.channels, router := HomeRouter(s.router, h.used, osFree))
  }

  // ---- rulesets ----

  function CreateRuleset(s: State, name: string, target: Target, matchers: seq<Matcher>): Result<State, string> {
    if matchers == [] then Err("at least one matcher is required")
    else if name == "" then Err("ruleset name cannot be empty")
    else if !TargetOk(s.channels, target) then Err("no such channel to route to")
    else
      var out := CreateRows(s.rules, name, target, matchers);
      if !Grouped(out) then Err("rulesets are not contiguous") else Ok(s.(rules := out))
  }

  function AddMatchers(s: State, rs: Id, matchers: seq<Matcher>): Result<State, string> {
    if matchers == [] then Err("at least one matcher is required")
    else if !Grouped(s.rules) then Err("rulesets are not contiguous")
    else
      FlattenRuns(s.rules);
      if !HasBlock(Runs(s.rules), rs) then Err("unknown ruleset")
      else
        var block := BlockById(Runs(s.rules), rs);
        Ok(s.(rules := AddRows(s.rules, rs, block.Target(), block.Name(), matchers)))
  }

  function RemoveRuleset(s: State, rs: Id): Result<State, string> {
    if !Grouped(s.rules) then Err("rulesets are not contiguous")
    else if !HasRuleset(s.rules, rs) then Err("unknown ruleset")
    else Ok(s.(rules := Without(s.rules, rs)))
  }

  function RenameRuleset(s: State, rs: Id, name: string): Result<State, string> {
    if name == "" then Err("ruleset name cannot be empty")
    else if !Grouped(s.rules) then Err("rulesets are not contiguous")
    else if !HasRuleset(s.rules, rs) then Err("unknown ruleset")
    else Ok(s.(rules := RenameRows(s.rules, rs, name)))
  }

  function RetargetRuleset(s: State, rs: Id, target: Target): Result<State, string> {
    if !TargetOk(s.channels, target) then Err("no such channel to route to")
    else if !Grouped(s.rules) then Err("rulesets are not contiguous")
    else if !HasRuleset(s.rules, rs) then Err("unknown ruleset")
    else Ok(s.(rules := RetargetRows(s.rules, rs, target)))
  }

  function UpdateRuleset(s: State, rs: Id, name: string, target: Target, matchers: seq<Matcher>,
                         expected: Option<RulesetBlock>):
    Result<State, string>
  {
    if name == "" then Err("ruleset name cannot be empty")
    else if matchers == [] then Err("at least one matcher is required")
    else if !Grouped(s.rules) then Err("rulesets are not contiguous")
    else if !Expected(expected, RulesetRevision(s.rules, rs)) then Err("changed since it was read")
    else if !TargetOk(s.channels, target) then Err("no such channel to route to")
    else if !HasRuleset(s.rules, rs) then Err("unknown ruleset")
    else
      var out := UpdateRows(s.rules, rs, name, target, matchers);
      if !Grouped(out) then Err("rulesets are not contiguous") else Ok(s.(rules := out))
  }

  function RemoveRules(s: State, ids: seq<Id>): State {
    s.(rules := WithoutIds(s.rules, SetOf(ids)))
  }

  predicate AllNamed(rules: seq<Rule>, wanted: seq<Id>) {
    forall i :: 0 <= i < |wanted| ==> HasId(rules, wanted[i])
  }

  predicate NoneInside(rules: seq<Rule>, wanted: seq<Id>, rs: Id)
    requires AllNamed(rules, wanted)
  {
    forall i :: 0 <= i < |wanted| ==> RowById(rules, wanted[i]).ruleset != rs
  }

  function MoveRules(s: State, ids: seq<Id>, rs: Id): Result<State, string> {
    var wanted := Dedup(ids);
    if !Grouped(s.rules) then Err("rulesets are not contiguous")
    else
      FlattenRuns(s.rules);
      if !HasBlock(Runs(s.rules), rs) then Err("unknown ruleset")
      else if !AllNamed(s.rules, wanted) then Err("no such rule")
      else if !NoneInside(s.rules, wanted, rs) then Err("already in the ruleset")
      else
        var dest := BlockById(Runs(s.rules), rs);
        var out := MoveRows(s.rules, wanted, rs, dest.Name(), dest.Target());
        if !Grouped(out) then Err("rulesets are not contiguous") else Ok(s.(rules := out))
  }

  function ReorderRules(s: State, ids: seq<Id>): Result<State, string> {
    if !Grouped(s.rules) then Err("rulesets are not contiguous")
    else if !FullPermutation(IdsOf(s.rules), ids) then Err("not a permutation")
    else
      PermutationNamesRows(s.rules, ids);
      var out := RowsById(s.rules, ids);
      if !Grouped(out) then Err("rulesets are not contiguous") else Ok(s.(rules := out))
  }

  function ReorderRulesets(s: State, ids: seq<Id>, expected: Option<seq<Id>>): Result<State, string> {
    if !Grouped(s.rules) then Err("rulesets are not contiguous")
    else if !Expected(expected, Some(BlockIds(Runs(s.rules)))) then Err("changed since it was read")
    else if !FullPermutation(BlockIds(Runs(s.rules)), ids) then Err("not a permutation")
    else
      PermutationNamesBlocks(Runs(s.rules), ids);
      Ok(s.(rules := Flatten(PermuteBlocks(Runs(s.rules), ids))))
  }

  // ---- toggles ----

  datatype Toggle = Killswitch | LanDirect | Tun

  function SetToggle(s: State, toggle: Toggle, on: bool): State {
    match toggle
    case Killswitch => s.(router := s.router.(killswitch := on))
    case LanDirect => s.(router := s.router.(lanDirect := on))
    case Tun => s.(router := s.router.(tun := on))
  }

  // ---- whole bundles ----

  function MergedProviders(providers: map<string, bool>, named: seq<string>): map<string, bool> {
    map p | p in providers.Keys + (set q | q in named) :: if p in providers then providers[p] else false
  }

  predicate SpecTargetsOk(channels: map<Ref, Channel>, specs: seq<RulesetSpec>) {
    forall i :: 0 <= i < |specs| ==> TargetOk(channels, specs[i].target)
  }

  /** Bundle rulesets become new blocks behind the existing ones. */
  function AppendRulesets(rules: seq<Rule>, specs: seq<RulesetSpec>): seq<Rule> {
    if specs == [] then rules
    else
      var d := specs[|specs| - 1];
      CreateRows(AppendRulesets(rules, specs[..|specs| - 1]), d.name, d.target, d.matchers)
  }

  function MergeSetup(s: State, b: Bundle, offers: seq<nat>): Result<State, string> {
    if References(s.rules, Disabling(s.channels, b.channels)) then Err("referenced")
    else
      match UpsertAll(Upserts(s.channels, offers, []), s.router, b.channels, false)
      case Err(e) => Err(e)
      case Ok(u) =>
        if !SpecTargetsOk(u.channels, b.rulesets) then Err("no such channel to route to")
        else
          match RouterAfter(u.channels, s.router, b, false)
          case Err(e) => Err(e)
          case Ok(router) =>
            Ok(State(MergedProviders(s.providers, b.providers), u.channels, router,
                     AppendRulesets(s.rules, b.rulesets)))
  }

  /** What a merge reports: providers added, what became of each channel of the bundle, the rulesets appended. */
  datatype MergeReport = MergeReport(providersAdded: set<string>, changes: seq<Change>, rulesetsAdded: seq<string>)

  function RulesetNames(specs: seq<RulesetSpec>): (names: seq<string>)
    ensures |names| == |specs| && forall i :: 0 <= i < |specs| ==> names[i] == specs[i].name
  {
    seq(|specs|, i requires 0 <= i < |specs| => specs[i].name)
  }

  function MergeOutcome(s: State, b: Bundle, offers: seq<nat>): MergeReport
    requires MergeSetup(s, b, offers).Ok?
  {
    MergeReport((set q | q in b.providers && q !in s.providers),
                UpsertAll(Upserts(s.channels, offers, []), s.router, b.channels, false).value.changes,
                RulesetNames(b.rulesets))
  }

  /** The record a restore writes before fresh ports are handed out: a declared port wins over a kept one. */
  function RestoredChannel(old_: map<Ref, Channel>, spec: ChannelSpec): Channel {
    var port := if spec.port != 0 then spec.port else if spec.ref in old_ then old_[spec.ref].port else 0;
    NewChannel(spec, port, spec.enabled != Some(false), false)
  }

  function RestoredChannels(old_: map<Ref, Channel>, specs: seq<ChannelSpec>): map<Ref, Channel> {
    if specs == [] then map[]
    else
      var last := specs[|specs| - 1];
      RestoredChannels(old_, specs[..|specs| - 1])[last.ref := RestoredChannel(old_, last)]
  }

  /** Fresh ports for the channels that have none, in bundle order. */
  function FillPorts(channels: map<Ref, Channel>, router: Router, specs: seq<ChannelSpec>, offers: seq<nat>):
    (out: Result<(map<Ref, Channel>, seq<nat>), string>)
    requires forall i :: 0 <= i < |specs| ==> specs[i].ref in channels
    ensures out.Ok? ==> out.value.0.Keys == channels.Keys
  {
    if specs == [] then Ok((channels, offers))
    else
      match FillPorts(channels, router, specs[..|specs| - 1], offers)
      case Err(e) => Err(e)
      case Ok((filled, left)) =>
        var ref := specs[|specs| - 1].ref;
        if filled[ref].port != 0 then Ok((filled, left))
        else if !OfferOk(filled, router, left) then Err("no free port")
        else Ok((filled[ref := filled[ref].(port := left[0])], left[1..]))
  }

  /** The rule list of a restore, every id minted afresh. */
  function RestoredRules(specs: seq<RulesetSpec>): seq<Rule> {
    if specs == [] then []
    else
      var before := RestoredRules(specs[..|specs| - 1]);
      var d := specs[|specs| - 1];
      before + NewRows(|before|, d.matchers, d.target, Minted(|specs|), d.name, false)
  }

  lemma {:induction false} RestoredHas(old_: map<Ref, Channel>, specs: seq<ChannelSpec>)
    ensures forall i :: 0 <= i < |specs| ==> specs[i].ref in RestoredChannels(old_, specs)
    ensures RestoredChannels(old_, specs).Keys == BundleRefs(specs)
  {
    if specs != [] {
      var front, last := specs[..|specs| - 1], specs[|specs| - 1];
      RestoredHas(old_, front);
      assert specs == front + [last];
      RefsAppend(front, last);
      forall i | 0 <= i < |specs| ensures specs[i].ref in RestoredChannels(old_, specs) {
        if i < |front| {
          assert front[i] == specs[i];
        }
      }
    }
  }

  function RestoreSetup(s: State, b: Bundle, killswitch: bool, lanDirect: bool, offers: seq<nat>):
    Result<State, string>
  {
    RestoredHas(s.channels, b.channels);
    var channels := RestoredChannels(s.channels, b.channels);
    var router := if b.routerPort != 0 then s.router.(port := b.routerPort, portExplicit := true) else s.router;
    if !DistinctPorts(channels, router) then Err("port declared twice")
    else
      match FillPorts(channels, router, b.channels, offers)
      case Err(e) => Err(e)
      case Ok((filled, _)) =>
        Ok(State(MergedProviders(map[], b.providers), filled,
                 router.(killswitch := killswitch, lanDirect := lanDirect), RestoredRules(b.rulesets)))
  }
}
