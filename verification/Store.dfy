/** The store: one committed state. A transaction works on its own copy and commits all of it, or raises and commits
    nothing. */
module Store {
  import opened Common
  import opened Routes
  import opened State
  import opened RulesetOps
  import opened RulesetMoves
  import opened RulesetOrder
  import opened Setup
  import opened Ports
  import opened StoreLoops
  import opened SyncLoops
  import opened PortLoops
  import opened SyncRules
  import Ids = ChannelIds
  import Ops = Operations
  import Sync = SyncSetup
  import Keeps = Reachable
  import Rows = RulesPreserved
  import Bundles = BundleCommits
  import Moves = PortCommits
  import Writes = ChannelCommits
  import Edits = RulesetCommits

  /** What is on disk after a transaction with the given outcome. */
  function Committed(before: State, outcome: Result<State, string>): State {
    if outcome.Ok? then outcome.value else before
  }

  lemma {:induction false} CreateCommits(s: State, name: string, target: Target, matchers: seq<Matcher>)
    requires Inv(s) && matchers != [] && name != "" && TargetOk(s.channels, target)
    ensures var rules := CreateRows(s.rules, name, target, matchers);
            && Ops.CreateRuleset(s, name, target, matchers) == Ok(s.(rules := rules)) && Inv(s.(rules := rules))
            && Grouped(rules) && Runs(rules) == Runs(s.rules) + [CreatedBlock(s.rules, name, target, matchers)]
  {
    CreateAppendsBlock(s.rules, name, target, matchers);
    Rows.CreateKeeps(s.channels, s.rules, name, target, matchers);
  }

  lemma {:induction false} UpdateCommits(s: State, rs: Id, name: string, target: Target, matchers: seq<Matcher>,
                                         expected: Option<RulesetBlock>, rules: seq<Rule>)
    requires Inv(s) && name != "" && matchers != [] && TargetOk(s.channels, target) && HasRuleset(s.rules, rs)
    requires Ops.Expected(expected, Ops.RulesetRevision(s.rules, rs))
    requires rules == UpdateRows(s.rules, rs, name, target, matchers)
    ensures Ops.UpdateRuleset(s, rs, name, target, matchers, expected) == Ok(s.(rules := rules))
    ensures Inv(s.(rules := rules)) && HasRuleset(rules, rs)
    ensures Edits.Replaced(s, s.(rules := rules), rs, name, target, matchers)
  {
    Rows.UpdateKeeps(s.channels, s.rules, rs, name, target, matchers);
    Edits.UpdateCommits(s, rs, name, target, matchers, expected);
    var kept := Without(s.rules, rs);
    var at := if FirstOf(s.rules, rs) < |kept| then FirstOf(s.rules, rs) else |kept|;
    SplicedIn(kept[..at], NewRows(MaxRule(kept), matchers, target, rs, name, false), kept[at..], rs);
  }

  lemma {:induction false} ExtendCommits(s: State, rs: Id, matchers: seq<Matcher>, rules: seq<Rule>)
    requires Inv(s) && matchers != [] && HasBlock(Runs(s.rules), rs) && BlockById(Runs(s.rules), rs).rules != []
    requires var block := BlockById(Runs(s.rules), rs);
             rules == AddRows(s.rules, rs, block.Target(), block.Name(), matchers)
    ensures Ops.AddMatchers(s, rs, matchers) == Ok(s.(rules := rules))
    ensures Inv(s.(rules := rules)) && HasRuleset(rules, rs)
    ensures Edits.Extended(s, s.(rules := rules), rs, matchers)
  {
    var block := BlockById(Runs(s.rules), rs);
    var end := EndOf(s.rules, rs);
    Edits.AddCommits(s, rs, matchers);
    Keeps.AddMatchersKeeps(s, rs, matchers);
    SplicedIn(s.rules[..end], NewRows(MaxRule(s.rules), matchers, block.Target(), rs, block.Name(), false),
              s.rules[end..], rs);
  }

  /** `block` is the block of ruleset `rs`. */
  predicate IsBlock(rules: seq<Rule>, rs: Id, block: RulesetBlock) {
    Grouped(rules) && HasBlock(Runs(rules), rs) && block == BlockById(Runs(rules), rs)
  }

  class Store {
    var data: State

    ghost predicate Valid()
      reads this
    {
      Inv(data)
    }

    constructor ()
      ensures Valid() && data == BLANK
      ensures data.providers == map[] && data.channels == map[] && data.rules == []
      ensures data.router.port == 0 && data.router.lanDirect && !data.router.killswitch && !data.router.tun
    {
      data := BLANK;
    }

    // ---- providers and channels ----

    method AddProvider(provider: string)
      requires Valid()
      modifies this
      ensures Valid() && data == Ops.AddProvider(old(data), provider)
      ensures Writes.ProviderIsAdded(old(data), data, provider)
    {
      Writes.ProvidersCommit(data, provider, []);
      if provider !in data.providers {
        data := data.(providers := data.providers[provider := false]);
      }
    }

    method RemoveProviders(providers: seq<string>) returns (ok: bool)
      requires Valid()
      modifies this
      ensures Valid() && ok == Ops.RemoveProviders(old(data), providers).Ok?
      ensures data == Committed(old(data), Ops.RemoveProviders(old(data), providers))
      ensures if ok then Writes.ProvidersAreRemoved(old(data), data, providers) else data == old(data)
      ensures ok <==> Writes.MayDrop(old(data), providers)
    {
      Writes.DropAcceptedIff(data, providers);
      Writes.ProvidersCommit(data, "", providers);
      var refs := Ops.ChannelsOf(data.channels, providers);
      if References(data.rules, refs) {
        return false;
      }
      Keeps.RemoveProvidersKeeps(data, providers);
      data := data.(providers := data.providers - (set p | p in providers), channels := data.channels - refs);
      ok := true;
    }

    /** Returns the id minted for the new channel. */
    method AddChannel(spec: ChannelSpec, base: string, offers: seq<nat>) returns (r: Result<Ref, string>)
      requires Valid()
      modifies this
      ensures Valid() && data == Committed(old(data), Ops.AddChannel(old(data), spec, base, offers))
      ensures r.Ok? == Ops.AddChannel(old(data), spec, base, offers).Ok?
      ensures r.Ok? ==> r.value !in old(data).channels && data.channels.Keys == old(data).channels.Keys + {r.value}
      ensures if r.Ok? then Writes.Added(old(data), data, r.value, spec) else data == old(data)
      ensures r.Ok? ==> Writes.NamedNext(old(data).channels, r.value, base)
      ensures r.Ok? <==> Writes.MayAdd(old(data), spec, offers)
    {
      Writes.AddAcceptedIff(data, spec, base, offers);
      var provider := spec.ref.provider;
      if provider !in data.providers {
        return Err("provider is not added");
      }
      var taken := Ops.ChannelIdsOf(data.channels, provider);
      var cid := Ids.NextId(taken, base);
      var ref := Ref(provider, cid);
      assert forall a <- data.channels.Keys :: a.provider == provider ==> a.cid in taken;
      var port := spec.port;
      if port != 0 {
        var used := UsedPortHolders(data.channels, data.router);
        if !ValidPort(port) || port in used {
          return Err("port in use");
        }
      } else {
        if !OfferOk(data.channels, data.router, offers) {
          return Err("no free port");
        }
        port := offers[0];
      }
      Keeps.AddChannelKeeps(data, spec, base, offers);
      ghost var added := Writes.AddCommits(data, spec, base, offers);
      data := data.(channels := data.channels[ref := NewChannel(spec, port, true, false)]);
      r := Ok(ref);
    }

    /** Returns whether the channel was created. */
    method UpsertChannel(spec: ChannelSpec, offers: seq<nat>) returns (r: Result<bool, string>)
      requires Valid()
      modifies this
      ensures Valid() && data == Committed(old(data), Ops.UpsertChannel(old(data), spec, offers))
      ensures r.Ok? == Ops.UpsertChannel(old(data), spec, offers).Ok?
      ensures r.Ok? ==> r.value == (spec.ref !in old(data).channels)
      ensures if r.Ok? then Writes.Imported(old(data), data, spec) else data == old(data)
      ensures r.Ok? <==> Writes.MayImport(old(data), spec, offers)
    {
      Writes.UpsertAcceptedIff(data, spec, offers);
      if spec.ref.provider !in data.providers {
        return Err("provider is not added");
      }
      ghost var outcome := Ops.UpsertChannel(data, spec, offers);
      if outcome.Ok? {
        Keeps.UpsertChannelKeeps(data, spec, offers);
        Writes.UpsertCommits(data, spec, offers);
      }
      if spec.ref !in data.channels {
        var port := spec.port;
        if port != 0 {
          var ok := ClaimPort(data.channels, data.router, port, spec.ref);
          if !ok {
            return Err("port in use");
          }
        } else {
          if !OfferOk(data.channels, data.router, offers) {
            return Err("no free port");
          }
          port := offers[0];
        }
        data := data.(channels := data.channels[spec.ref := NewChannel(spec.(server := ""), port, true, false)]);
        return Ok(true);
      }
      var ch := data.channels[spec.ref];
      ch := ch.(country := spec.country);
      ch := ch.(city := spec.city);
      ch := ch.(wg := spec.wg);
      if spec.port != 0 && spec.port != ch.port {
        var ok := ClaimPort(data.channels, data.router, spec.port, spec.ref);
        if !ok {
          return Err("port in use");
        }
        ch := ch.(port := spec.port);
      }
      if spec.port != 0 {
        ch := ch.(portExplicit := true);
      }
      if spec.title != "" {
        ch := ch.(title := spec.title);
      }
      ch := ch.(reconnect := None);
      assert ch == Ops.Reimported(data.channels[spec.ref], spec);
      data := data.(channels := data.channels[spec.ref := ch]);
      r := Ok(false);
    }

    /** Returns the channels that were there and are gone. */
    method RemoveChannels(refs: seq<Ref>) returns (r: Result<seq<Ref>, string>)
      requires Valid()
      modifies this
      ensures Valid() && data == Committed(old(data), Ops.RemoveChannels(old(data), refs))
      ensures r.Ok? == Ops.RemoveChannels(old(data), refs).Ok?
      ensures r.Ok? ==> forall a :: a in r.value <==> a in refs && a in old(data).channels
      ensures if r.Ok? then Writes.Removed(old(data), data, refs) else data == old(data)
      ensures r.Ok? <==> Writes.Untargeted(old(data).rules, refs)
    {
      Writes.RemoveAcceptedIff(data, refs, true, map[]);
      if References(data.rules, Ops.RefSet(refs)) {
        return Err("referenced");
      }
      var channels, removed := DropChannels(data.channels, refs);
      assert forall a :: a in removed <==> a in Ops.RefSet(removed);
      Keeps.RemoveChannelsKeeps(data, refs);
      Writes.RemoveCommits(data, refs);
      data := data.(channels := channels);
      r := Ok(removed);
    }

    /** Returns the channels whose state really changed. */
    method SetChannelsEnabled(refs: seq<Ref>, enabled: bool, expected: map<Ref, Channel>)
        returns (r: Result<seq<Ref>, string>)
      requires Valid()
      modifies this
      ensures Valid() && data == Committed(old(data), Ops.SetEnabled(old(data), refs, enabled, expected))
      ensures r.Ok? == Ops.SetEnabled(old(data), refs, enabled, expected).Ok?
      ensures r.Ok? ==> forall a :: a in r.value <==>
                          a in refs && a in old(data).channels && old(data).channels[a].enabled != enabled
      ensures if r.Ok? then Writes.SetTo(old(data), data, refs, enabled) else data == old(data)
      ensures r.Ok? <==> Writes.AsRead(old(data).channels, expected)
                         && (enabled || Writes.Untargeted(old(data).rules, refs))
    {
      Writes.RemoveAcceptedIff(data, refs, enabled, expected);
      if exists a <- expected.Keys :: !Ops.Expected(Some(expected[a]), Ops.ChannelRevision(data.channels, a)) {
        return Err("changed since it was read");
      }
      if !enabled && References(data.rules, Ops.RefSet(refs)) {
        return Err("referenced");
      }
      var channels, changed := ToggleChannels(data.channels, refs, enabled);
      Keeps.SetEnabledKeeps(data, refs, enabled, expected);
      Writes.SetCommits(data, refs, enabled, expected);
      data := data.(channels := channels);
      r := Ok(changed);
    }

    /** One channel's label, pin, keys, probe or recovery record. Returns whether the channel is there. */
    method WriteNote(ref: Ref, note: Ops.Note, expected: Option<Channel>) returns (r: Result<bool, string>)
      requires Valid()
      modifies this
      ensures Valid() && data == Committed(old(data), Ops.WriteNote(old(data), ref, note, expected))
      ensures r.Ok? == Ops.Expected(expected, Ops.ChannelRevision(old(data).channels, ref))
      ensures r.Ok? ==> r.value == (ref in old(data).channels)
      ensures if r.Ok? then Writes.NoteWritten(old(data), data, ref, note) else data == old(data)
    {
      if !Ops.Expected(expected, Ops.ChannelRevision(data.channels, ref)) {
        return Err("changed since it was read");
      }
      Writes.NoteCommits(data, ref, note, expected);
      if ref !in data.channels {
        return Ok(false);
      }
      Keeps.WriteNoteKeeps(data, ref, note, expected);
      data := data.(channels := data.channels[ref := Ops.Noted(data.channels[ref], note)]);
      r := Ok(true);
    }

    /** `update_channels_wg`: new keys for several channels of a provider at once. Returns the channels that got
        theirs. */
    method UpdateChannelsWg(provider: string, keys: map<string, Wg>, order: seq<string>) returns (updated: seq<string>)
      requires Valid() && forall cid :: cid in order <==> cid in keys
      modifies this
      ensures Valid() && data == Ops.ReplaceKeys(old(data), provider, keys)
      ensures forall cid :: cid in updated <==> cid in keys && Ref(provider, cid) in old(data).channels
      ensures Writes.Rekeys(old(data), data, provider, keys)
    {
      Writes.RekeyCommits(data, provider, keys);
      Keeps.ReplaceKeysKeeps(data, provider, keys);
      var channels;
      channels, updated := ReplaceKeysIn(data.channels, provider, keys, order);
      data := data.(channels := channels);
    }

    method SetToggle(toggle: Ops.Toggle, on: bool)
      requires Valid()
      modifies this
      ensures Valid() && data == Ops.SetToggle(old(data), toggle, on)
      ensures Writes.ToggleCommitted(old(data), data, toggle, on)
    {
      Writes.ToggleCommits(data, toggle, on);
      match toggle {
        case Killswitch => data := data.(router := data.router.(killswitch := on));
        case LanDirect => data := data.(router := data.router.(lanDirect := on));
        case Tun => data := data.(router := data.router.(tun := on));
      }
    }

    method ClearReconnectAll() returns (cleared: nat)
      requires Valid()
      modifies this
      ensures Valid() && data == Ops.ClearReconnects(old(data))
      ensures cleared == |set a | a in old(data).channels && old(data).channels[a].reconnect.Some?|
      ensures Writes.Forgotten(old(data), data)
    {
      Writes.ForgetCommits(data);
      Keeps.ClearReconnectsKeeps(data);
      var channels;
      channels, cleared := DropRecoveries(data.channels);
      data := data.(channels := channels);
    }

    // ---- ports ----

    /** Returns what moved, what is declared and therefore held, and what happened to the router's port. */
    method ReallocateChannelPorts(ports: set<nat>, order: seq<Ref>, offers: seq<nat>)
      returns (r: Result<(seq<(Ref, nat, nat)>, seq<(Ref, nat)>, RouterMove), string>)
      requires Valid() && Enumerates(order, data.channels.Keys)
      modifies this
      ensures Valid() && data == Committed(old(data), Ops.ReallocatePorts(old(data), ports, order, offers))
      ensures r.Ok? == Ops.ReallocatePorts(old(data), ports, order, offers).Ok?
      ensures r.Ok? ==> r.value == Ops.ReallocationReport(old(data), ports, order, offers)
      ensures if r.Ok? then Moves.Reallocated(old(data), data, ports, r.value) else data == old(data)
    {
      if Ops.ReallocatePorts(data, ports, order, offers).Ok? {
        Keeps.ReallocateKeeps(data, ports, order, offers);
        Moves.ReallocationCommits(data, ports, order, offers);
      }
      var m := MoveStolen(Reallocation(data.channels, offers, [], []), data.router, ports, order);
      if m.Err? {
        return Err(m.error);
      }
      var router := data.router;
      var move := RouterStays;
      if router.port != 0 && router.port in ports {
        if router.portExplicit {
          move := RouterHeld(router.port);
        } else {
          if !OfferOk(m.value.channels, router, m.value.offers) {
            return Err("no free port");
          }
          move := RouterMoved(router.port, m.value.offers[0]);
          if router.portHome.None? {
            router := router.(portHome := Some(router.port));
          }
          router := router.(port := m.value.offers[0]);
        }
      }
      data := data.(channels := m.value.channels, router := router);
      r := Ok((m.value.moved, m.value.held, move));
    }

    /** Returns the channel ports put back, and whether the router's was. */
    method RestoreHomePorts(order: seq<Ref>, osFree: nat -> bool) returns (restored: seq<(Ref, nat)>, routerToo: bool)
      requires Valid() && Enumerates(order, data.channels.Keys)
      modifies this
      ensures Valid() && data == Ops.RestoreHomePorts(old(data), order, osFree)
      ensures (restored, routerToo) == Ops.HomecomingReport(old(data), order, osFree)
      ensures Moves.CameHome(old(data), data, osFree, restored, routerToo)
    {
      Keeps.RestoreHomeKeeps(data, order, osFree);
      Moves.HomecomingCommits(data, order, osFree);
      var used := UsedPortHolders(data.channels, data.router);
      var h := BringHome(Homing(data.channels, used.Keys, []), osFree, order);
      var router := data.router;
      routerToo := CanGoHome(router.port, router.portExplicit, router.portHome, h.used, osFree);
      if routerToo {
        router := router.(port := router.portHome.value);
      }
      data := data.(channels := h.channels, router := router);
      restored := h.restored;
    }

    /** Allocates the router's port once; later calls return it unchanged. */
    method EnsureRouterPort(offers: seq<nat>) returns (r: Result<nat, string>)
      requires Valid()
      modifies this
      ensures Valid() && data == Committed(old(data), Ops.EnsureRouterPort(old(data), offers))
      ensures r.Ok? == Ops.EnsureRouterPort(old(data), offers).Ok?
      ensures r.Ok? ==> r.value == data.router.port != 0 && (old(data).router.port != 0 ==> data == old(data))
      ensures if r.Ok? then Writes.RouterPortEnsured(old(data), data) else data == old(data)
    {
      if data.router.port != 0 {
        return Ok(data.router.port);
      }
      if !OfferOk(data.channels, data.router, offers) {
        return Err("no free port");
      }
      Keeps.EnsureRouterPortKeeps(data, offers);
      Writes.RouterPortCommits(data, offers);
      data := data.(router := data.router.(port := offers[0]));
      r := Ok(offers[0]);
    }

    // ---- rulesets ----

    /** Returns the new block, which stands behind all others. */
    method CreateRuleset(name: string, target: Target, matchers: seq<Matcher>) returns (r: Result<RulesetBlock, string>)
      requires Valid()
      modifies this
      ensures Valid() && data == Committed(old(data), Ops.CreateRuleset(old(data), name, target, matchers))
      ensures r.Ok? == Ops.CreateRuleset(old(data), name, target, matchers).Ok?
      ensures r.Ok? <==> matchers != [] && name != ""
                         && (target.Via? ==> target.ref in old(data).channels
                                             && old(data).channels[target.ref].enabled)
      ensures if r.Ok? then Edits.Created(old(data), data, name, target, matchers) else data == old(data)
      ensures r.Ok? ==> Runs(data.rules) == Runs(old(data).rules) + [r.value]
    {
      if matchers == [] || name == "" || !TargetOk(data.channels, target) {
        return Err("not a ruleset");
      }
      var rules := AppendRuleset(data.rules, name, target, matchers);
      CreateCommits(data, name, target, matchers);
      Edits.CreateCommits(data, name, target, matchers);
      var blocks := RulesetBlocks(rules);
      data := data.(rules := rules);
      r := Ok(blocks.value[|blocks.value| - 1]);
    }

    /** Returns the removed rows. */
    method RemoveRuleset(rs: Id) returns (r: Result<seq<Rule>, string>)
      requires Valid()
      modifies this
      ensures Valid() && data == Committed(old(data), Ops.RemoveRuleset(old(data), rs))
      ensures r.Ok? == HasRuleset(old(data).rules, rs)
      ensures r.Ok? ==> r.value == Filter(InRuleset(rs), old(data).rules)
      ensures if r.Ok? then Edits.RulesetGone(old(data), data, rs) else data == old(data)
      ensures r.Ok? ==> Edits.Picks(r.value, old(data).rules, (x: Rule) => x.ruleset == rs)
    {
      var kept, removed := TakeRuleset(data.rules, rs);
      if removed == [] {
        return Err("unknown ruleset");
      }
      Rows.FilterKeeps(data.channels, Outside(rs), data.rules);
      Edits.RemoveCommits(data, rs, []);
      Edits.FilterPicks(InRuleset(rs), data.rules);
      Edits.PicksSame(removed, data.rules, InRuleset(rs), (x: Rule) => x.ruleset == rs);
      data := data.(rules := kept);
      r := Ok(removed);
    }

    /** Returns the block as it stands now, as the next operations on a ruleset do. */
    method RenameRuleset(rs: Id, name: string) returns (r: Result<RulesetBlock, string>)
      requires Valid()
      modifies this
      ensures Valid() && data == Committed(old(data), Ops.RenameRuleset(old(data), rs, name))
      ensures r.Ok? == (name != "" && HasRuleset(old(data).rules, rs))
      ensures if r.Ok? then Edits.Renamed(old(data), data, rs, name) else data == old(data)
      ensures r.Ok? ==> IsBlock(data.rules, rs, r.value)
    {
      if name == "" {
        return Err("ruleset name cannot be empty");
      }
      var rules, found := RenameInPlace(data.rules, rs, name);
      if !found {
        return Err("unknown ruleset");
      }
      Rows.RenameKeeps(data.channels, data.rules, rs, name);
      Edits.RewriteCommits(data, rs, name, Direct);
      data := data.(rules := rules);
      var block := BlockNow(rs);
      r := Ok(block);
    }

    method RetargetRuleset(rs: Id, target: Target) returns (r: Result<RulesetBlock, string>)
      requires Valid()
      modifies this
      ensures Valid() && data == Committed(old(data), Ops.RetargetRuleset(old(data), rs, target))
      ensures r.Ok? == (TargetOk(old(data).channels, target) && HasRuleset(old(data).rules, rs))
      ensures if r.Ok? then Edits.Retargeted(old(data), data, rs, target) else data == old(data)
      ensures r.Ok? ==> IsBlock(data.rules, rs, r.value)
    {
      if !TargetOk(data.channels, target) {
        return Err("no such channel to route to");
      }
      var rules, found := RetargetInPlace(data.rules, rs, target);
      if !found {
        return Err("unknown ruleset");
      }
      Rows.RetargetKeeps(data.channels, data.rules, rs, target);
      Edits.RewriteCommits(data, rs, "", target);
      data := data.(rules := rules);
      var block := BlockNow(rs);
      r := Ok(block);
    }

    /** The block of a ruleset that has rows. */
    method BlockNow(rs: Id) returns (block: RulesetBlock)
      requires Valid() && HasRuleset(data.rules, rs)
      ensures IsBlock(data.rules, rs, block)
    {
      var blocks := RulesetBlocks(data.rules);
      ghost var k := BlockOf(data.rules, rs);
      block := BlockById(blocks.value, rs);
    }

    method AddRulesetMatchers(rs: Id, matchers: seq<Matcher>) returns (r: Result<RulesetBlock, string>)
      requires Valid()
      modifies this
      ensures Valid() && data == Committed(old(data), Ops.AddMatchers(old(data), rs, matchers))
      ensures r.Ok? == Ops.AddMatchers(old(data), rs, matchers).Ok?
      ensures r.Ok? <==> matchers != [] && exists i :: 0 <= i < |old(data).rules| && old(data).rules[i].ruleset == rs
      ensures if r.Ok? then Edits.Extended(old(data), data, rs, matchers) else data == old(data)
      ensures r.Ok? ==> IsBlock(data.rules, rs, r.value)
    {
      if matchers == [] {
        return Err("at least one matcher is required");
      }
      var blocks := RulesetBlocks(data.rules);
      FlattenRuns(data.rules);
      Edits.BlockIffRuleset(data.rules, rs);
      if !HasBlock(blocks.value, rs) {
        return Err("unknown ruleset");
      }
      var block := BlockById(blocks.value, rs);
      var end := EndOfRuleset(data.rules, rs);
      var insert := MintRows(data.rules, matchers, block.Target(), rs, block.Name());
      var rules := data.rules[..end] + insert + data.rules[end..];
      ExtendCommits(data, rs, matchers, rules);
      data := data.(rules := rules);
      var now := BlockNow(rs);
      r := Ok(now);
    }

    method UpdateRuleset(rs: Id, name: string, target: Target, matchers: seq<Matcher>, expected: Option<RulesetBlock>)
      returns (r: Result<RulesetBlock, string>)
      requires Valid()
      modifies this
      ensures Valid() && data
              == Committed(old(data), Ops.UpdateRuleset(old(data), rs, name, target, matchers, expected))
      ensures r.Ok? == (name != "" && matchers != [] && Ops.Expected(expected, Ops.RulesetRevision(old(data).rules, rs))
                        && TargetOk(old(data).channels, target) && HasRuleset(old(data).rules, rs))
      ensures if r.Ok? then Edits.Replaced(old(data), data, rs, name, target, matchers) else data == old(data)
      ensures r.Ok? ==> IsBlock(data.rules, rs, r.value)
    {
      if name == "" || matchers == [] {
        return Err("no name or no matcher");
      }
      if !Ops.Expected(expected, Ops.RulesetRevision(data.rules, rs)) {
        return Err("changed since it was read");
      }
      if !TargetOk(data.channels, target) || !HasRuleset(data.rules, rs) {
        return Err("no such channel or ruleset");
      }
      var first := FirstRow(data.rules, rs);
      var kept, _ := TakeRuleset(data.rules, rs);
      var at := if first < |kept| then first else |kept|;
      var rows := MintRows(kept, matchers, target, rs, name);
      var rules := kept[..at] + rows + kept[at..];
      UpdateCommits(data, rs, name, target, matchers, expected, rules);
      data := data.(rules := rules);
      var block := BlockNow(rs);
      r := Ok(block);
    }

    /** Unknown ids are ignored. */
    method RemoveRules(ids: seq<Id>) returns (removed: seq<Rule>)
      requires Valid()
      modifies this
      ensures Valid() && data == Ops.RemoveRules(old(data), ids)
      ensures Edits.RulesGone(old(data), data, ids)
      ensures |data.rules| + |removed| == |old(data).rules|
      ensures Edits.Picks(removed, old(data).rules, (x: Rule) => x.id in ids)
    {
      var kept;
      Edits.RemoveCommits(data, Minted(0), ids);
      kept, removed := TakeRows(data.rules, SetOf(ids));
      Rows.FilterKeeps(data.channels, NotNamed(SetOf(ids)), data.rules);
      Edits.FilterPicks(Named(SetOf(ids)), data.rules);
      Edits.PicksSame(removed, data.rules, Named(SetOf(ids)), (x: Rule) => x.id in ids);
      data := data.(rules := kept);
    }

    /** Returns the destination block and the rulesets the move emptied. */
    method MoveRules(ids: seq<Id>, rs: Id) returns (r: Result<(RulesetBlock, seq<Id>), string>)
      requires Valid()
      modifies this
      ensures Valid() && data == Committed(old(data), Ops.MoveRules(old(data), ids, rs))
      ensures r.Ok? == Ops.MoveRules(old(data), ids, rs).Ok?
      ensures r.Ok? ==> IsBlock(data.rules, rs, r.value.0)
      ensures r.Ok? ==> forall id :: id in r.value.1 <==>
                          id in BlockIds(Runs(old(data).rules)) && id !in BlockIds(Runs(data.rules))
      ensures Identities(data.rules) == Identities(old(data).rules)
      ensures r.Ok? <==> Edits.MayMove(old(data).rules, ids, rs)
      ensures if r.Ok? then Edits.MovedInto(old(data), data, ids, rs) else data == old(data)
    {
      Edits.MoveAcceptedIff(data, ids, rs);
      var wanted := Dedup(ids);
      var blocks := RulesetBlocks(data.rules);
      FlattenRuns(data.rules);
      if !HasBlock(blocks.value, rs) || !Ops.AllNamed(data.rules, wanted) || !Ops.NoneInside(data.rules, wanted, rs) {
        return Err("unknown ruleset or rule, or already there");
      }
      Edits.MoveStaysGrouped(data, wanted, rs);
      Edits.MoveCommits(data, ids, rs);
      var dest := BlockById(blocks.value, rs);
      var kept, _ := TakeRows(data.rules, SetOf(wanted));
      var end := EndOfRuleset(kept, rs);
      var moved := CollectMoved(data.rules, wanted, rs, dest.Name(), dest.Target());
      Rows.MoveKeeps(data.channels, data.rules, wanted, rs);
      MoveConserves(data.rules, wanted, rs, dest.Name(), dest.Target());
      Rows.MoveLeavesDestination(data.channels, data.rules, wanted, rs);
      data := data.(rules := kept[..end] + moved + kept[end..]);
      var block := BlockNow(rs);
      var after := RulesetBlocks(data.rules);
      var gone := Dissolved(BlockIds(blocks.value), BlockIds(after.value));
      r := Ok((block, gone));
    }

    /** Returns whether the order changed. */
    method ReorderRules(ids: seq<Id>) returns (r: Result<bool, string>)
      requires Valid()
      modifies this
      ensures Valid() && data == Committed(old(data), Ops.ReorderRules(old(data), ids))
      ensures r.Ok? == Ops.ReorderRules(old(data), ids).Ok?
      ensures if r.Ok? then Edits.RowsOrdered(old(data), data, ids) else data == old(data)
      ensures r.Ok? ==> r.value == (ids != IdsOf(old(data).rules))
      ensures multiset(data.rules) == multiset(old(data).rules)
    {
      var current := IdsOf(data.rules);
      var ok := CheckPermutation(current, ids);
      if !ok {
        return Err("not a permutation");
      }
      PermutationNamesRows(data.rules, ids);
      var ordered := RowsById(data.rules, ids);
      ReorderConserves(data.rules, ids);
      var blocks := RulesetBlocks(ordered);
      if blocks.Err? {
        return Err(blocks.error);
      }
      Keeps.ReorderRulesKeeps(data, ids);
      Edits.OrderCommits(data, ids);
      data := data.(rules := ordered);
      r := Ok(ids != current);
    }

    method ReorderRulesets(ids: seq<Id>, expected: Option<seq<Id>>) returns (r: Result<bool, string>)
      requires Valid()
      modifies this
      ensures Valid() && data == Committed(old(data), Ops.ReorderRulesets(old(data), ids, expected))
      ensures r.Ok? == (Ops.Expected(expected, Some(BlockIds(Runs(old(data).rules))))
                        && FullPermutation(BlockIds(Runs(old(data).rules)), ids))
      ensures r.Ok? ==> r.value == (ids != BlockIds(Runs(old(data).rules)))
      ensures if r.Ok? then Edits.BlocksOrdered(old(data), data, ids) else data == old(data)
      ensures multiset(data.rules) == multiset(old(data).rules)
    {
      var blocks := RulesetBlocks(data.rules);
      var current := BlockIds(blocks.value);
      if !Ops.Expected(expected, Some(current)) {
        return Err("changed since it was read");
      }
      var ok := CheckPermutation(current, ids);
      if !ok {
        return Err("not a permutation");
      }
      PermutationNamesBlocks(blocks.value, ids);
      ReorderRulesetsConserves(data.rules, ids);
      Keeps.ReorderRulesetsKeeps(data, ids, expected);
      data := data.(rules := Flatten(PermuteBlocks(blocks.value, ids)));
      r := Ok(ids != current);
    }

    // ---- whole bundles ----

    method MergeSetup(b: Bundle, offers: seq<nat>) returns (r: Result<Ops.MergeReport, string>)
      requires Valid() && WellFormedBundle(b)
      modifies this
      ensures Valid() && data == Committed(old(data), Ops.MergeSetup(old(data), b, offers))
      ensures r.Ok? == Ops.MergeSetup(old(data), b, offers).Ok?
      ensures r.Ok? ==> r.value == Ops.MergeOutcome(old(data), b, offers)
      ensures if r.Ok? then Bundles.MergeCommits(old(data), data, b, r.value) else data == old(data)
    {
      if Ops.MergeSetup(data, b, offers).Ok? {
        Keeps.MergeKeeps(data, b, offers);
        Bundles.MergeDoes(data, b, offers);
      }
      if References(data.rules, Disabling(data.channels, b.channels)) {
        return Err("referenced");
      }
      var u := UpsertChannels(Upserts(data.channels, offers, []), data.router, b.channels, false);
      if u.Err? {
        return Err(u.error);
      }
      if !Ops.SpecTargetsOk(u.value.channels, b.rulesets) {
        return Err("no such channel to route to");
      }
      var rules := AppendBlocks(data.rules, b.rulesets);
      var router := RouterAfter(u.value.channels, data.router, b, false);
      if router.Err? {
        return Err(router.error);
      }
      var report := Ops.MergeReport((set q | q in b.providers && q !in data.providers), u.value.changes,
                                    Ops.RulesetNames(b.rulesets));
      assert report == Ops.MergeOutcome(data, b, offers);
      r := Ok(report);
      data := data.(providers := Ops.MergedProviders(data.providers, b.providers), channels := u.value.channels,
                    router := router.value, rules := rules);
      assert data == Ops.MergeSetup(old(data), b, offers).value;
    }

    method SyncSetup(b: Bundle, offers: seq<nat>) returns (r: Result<Sync.SyncReport, string>)
      requires Valid() && WellFormedBundle(b)
      modifies this
      ensures Valid() && data == Committed(old(data), Keeps.SyncedState(old(data), b, offers))
      ensures r.Ok? == Sync.SyncSetup(old(data), b, offers).Ok?
      ensures r.Ok? ==> r.value == Sync.SyncSetup(old(data), b, offers).value.1
      ensures if r.Ok? then Bundles.SyncCommits(old(data), data, b, r.value) else data == old(data)
    {
      if Sync.SyncSetup(data, b, offers).Ok? {
        Sync.SyncKeepsInv(data, b, offers);
        Bundles.SyncDoes(data, b, offers);
      }
      var disabling := Disabling(data.channels, b.channels);
      var p := ConvergeRules(data.rules, b.rulesets, MaxRule(data.rules), MaxRuleset(data.rules));
      var rules := p.value.rules;
      var candidates := Sync.Candidates(data.channels, b.channels);
      var channels, pruned, kept := PruneChannels(data.channels, candidates, rules);
      var dropped := Sync.Dropped(data.providers, channels, b.providers);
      var providers := Sync.WithProviders(data.providers - dropped, b.providers);
      RemovalKeepsPorts(data.channels, data.router, pruned);
      var u := UpsertChannels(Upserts(channels, offers, []), data.router, b.channels, true);
      if u.Err? {
        return Err(u.error);
      }
      if !Sync.AllTargetsOk(u.value.channels, p.value.pending) {
        return Err("no such channel to route to");
      }
      if References(rules, disabling) {
        return Err("referenced");
      }
      var router := RouterAfter(u.value.channels, data.router, b, true);
      if router.Err? {
        return Err(router.error);
      }
      r := Ok(Sync.SyncReport((set q | q in b.providers && q !in data.providers), dropped, u.value.changes, pruned,
                              kept,
                              p.value.kept, p.value.updated, p.value.pruned, p.value.added));
      data := data.(providers := providers, channels := u.value.channels, router := router.value, rules := rules);
    }

    method RestoreSetup(b: Bundle, killswitch: bool, lanDirect: bool, offers: seq<nat>) returns (ok: bool)
      requires Valid() && Keeps.Validated(b)
      modifies this
      ensures Valid() && data == Committed(old(data), Ops.RestoreSetup(old(data), b, killswitch, lanDirect, offers))
      ensures ok == Ops.RestoreSetup(old(data), b, killswitch, lanDirect, offers).Ok?
      ensures if ok then Bundles.RestoreCommits(old(data), data, b, killswitch, lanDirect) else data == old(data)
    {
      if Ops.RestoreSetup(data, b, killswitch, lanDirect, offers).Ok? {
        Keeps.RestoreKeeps(data, b, killswitch, lanDirect, offers);
        Bundles.RestoreDoes(data, b, killswitch, lanDirect, offers);
      }
      Ops.RestoredHas(data.channels, b.channels);
      var channels := BuildChannels(data.channels, b.channels);
      var router := data.router;
      if b.routerPort != 0 {
        router := router.(port := b.routerPort, portExplicit := true);
      }
      var distinct := PortsDistinct(channels, router, b.channels);
      if !distinct {
        return false;
      }
      var filled := AllocateMissing(channels, router, b.channels, offers);
      if filled.Err? {
        return false;
      }
      router := router.(killswitch := killswitch);
      router := router.(lanDirect := lanDirect);
      var rules := NumberRules(b.rulesets);
      data := data.(providers := Ops.MergedProviders(map[], b.providers), channels := filled.value, router := router,
                    rules := rules);
      ok := true;
    }
  }
}
