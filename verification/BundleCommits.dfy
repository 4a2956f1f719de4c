/** What merging, syncing and restoring a bundle commit. */
module BundleCommits {
  import opened Common
  import opened State
  import opened RulesetOps
  import opened Setup
  import opened Operations
  import opened SyncRules
  import opened SyncRulesFrame
  import opened SyncConvergence
  import Sync = SyncSetup
  import Ids = ChannelIds

  // ---- the router section ----

  /** Stated toggles and a stated port are taken over, a stated port is a declared one; what is unstated stays, except
      that a sync takes a declaration back. */
  predicate RouterFollows(before: Router, after: Router, b: Bundle, sync: bool) {
    && after.killswitch == (if b.killswitch.Some? then b.killswitch.value else before.killswitch)
    && after.lanDirect == (if b.lanDirect.Some? then b.lanDirect.value else before.lanDirect)
    && (if b.routerPort != 0 then after.port == b.routerPort && after.portExplicit
        else after.port == before.port && (after.portExplicit <==> before.portExplicit && !sync))
    && after.tun == before.tun && after.portHome == before.portHome
  }

  lemma {:induction false} RouterAfterFollows(channels: map<Ref, Channel>, router: Router, b: Bundle, sync: bool)
    requires RouterAfter(channels, router, b, sync).Ok?
    ensures RouterFollows(router, RouterAfter(channels, router, b, sync).value, b, sync)
  {
  }

  // ---- the declared channels ----

  /** A channel that was not there: as declared, on its declared port or a valid one, enabled unless declared otherwise,
      with no history. */
  predicate CreatedAs(ch: Channel, spec: ChannelSpec, managed: bool) {
    && ch.country == spec.country && ch.city == spec.city && ch.title == spec.title && ch.server == spec.server
    && ch.wg == spec.wg
    && (spec.port != 0 ==> ch.port == spec.port) && 0 < ch.port <= 65535 && (ch.portExplicit <==> spec.port != 0)
    && ch.portHome == None && (ch.enabled <==> spec.enabled != Some(false)) && ch.managed == managed
    && ch.probe == None && ch.reconnect == None
  }

  /** A channel that was there: location, pin and keys as declared; title, port and state as declared or as they were;
      its mark and its home port stay. If that changes nothing, nothing changes; otherwise its recovery record goes,
      and its probe result too when it is disabled. */
  predicate UpdatedAs(before: Channel, after: Channel, spec: ChannelSpec, sync: bool) {
    && after.country == spec.country && after.city == spec.city && after.server == spec.server && after.wg == spec.wg
    && after.title == (if spec.title != "" then spec.title else before.title)
    && after.port == (if spec.port != 0 then spec.port else before.port)
    && (after.portExplicit <==> spec.port != 0 || (before.portExplicit && !sync))
    && after.enabled == (if spec.enabled.Some? then spec.enabled.value else before.enabled)
    && after.portHome == before.portHome && after.managed == before.managed
    && (if after.(probe := before.probe, reconnect := before.reconnect) == before then after == before
        else after.reconnect == None && after.probe == (if after.enabled then before.probe else None))
  }

  /** What became of one declared channel, and that the report says so. */
  predicate Followed(before: map<Ref, Channel>, after: map<Ref, Channel>, spec: ChannelSpec, sync: bool, told: Change) {
    && spec.ref in after
    && (if spec.ref in before then UpdatedAs(before[spec.ref], after[spec.ref], spec, sync)
        else CreatedAs(after[spec.ref], spec, sync))
    && told == (if spec.ref !in before then Created else if after[spec.ref] == before[spec.ref] then Unchanged
                else Updated)
  }

  lemma {:induction false} UpsertOneFollows(u: Upserts, router: Router, spec: ChannelSpec, sync: bool)
    requires UpsertOne(u, router, spec, sync).Ok?
    ensures var v := UpsertOne(u, router, spec, sync).value;
            && |v.changes| == |u.changes| + 1 && v.changes[..|u.changes|] == u.changes
            && Followed(u.channels, v.channels, spec, sync, v.changes[|u.changes|])
  {
  }

  ghost predicate DistinctSpecs(specs: seq<ChannelSpec>) {
    forall i, j :: 0 <= i < j < |specs| ==> specs[i].ref != specs[j].ref
  }

  /** Each of the declared channels was followed, and the report says so entry by entry. */
  ghost predicate AllFollowed(before: map<Ref, Channel>, v: Upserts, specs: seq<ChannelSpec>, sync: bool) {
    && |v.changes| == |specs|
    && forall i :: 0 <= i < |specs| ==> Followed(before, v.channels, specs[i], sync, v.changes[i])
  }

  /** One more upsert follows its own channel and changes nothing about the others. */
  lemma {:induction false} OneMoreFollowed(before: map<Ref, Channel>, mid: Upserts, out: Upserts,
                                           front: seq<ChannelSpec>, last: ChannelSpec, sync: bool)
    requires AllFollowed(before, mid, front, sync) && forall i :: 0 <= i < |front| ==> front[i].ref != last.ref
    requires |out.changes| == |mid.changes| + 1 && out.changes[..|mid.changes|] == mid.changes
    requires TouchesOnly(mid.channels, out.channels, {last.ref})
    requires Followed(mid.channels, out.channels, last, sync, out.changes[|mid.changes|])
    requires last.ref in before <==> last.ref in mid.channels
    requires last.ref in before ==> mid.channels[last.ref] == before[last.ref]
    ensures AllFollowed(before, out, front + [last], sync)
  {
    forall i | 0 <= i < |front| ensures Followed(before, out.channels, front[i], sync, out.changes[i]) {
      assert out.changes[..|mid.changes|][i] == out.changes[i];
    }
  }

  lemma {:induction false} UpsertAllFollows(channels: map<Ref, Channel>, router: Router, specs: seq<ChannelSpec>,
                                            offers: seq<nat>, sync: bool)
    requires UpsertAll(Upserts(channels, offers, []), router, specs, sync).Ok? && DistinctSpecs(specs)
    ensures AllFollowed(channels, UpsertAll(Upserts(channels, offers, []), router, specs, sync).value, specs, sync)
  {
    if specs != [] {
      var u := Upserts(channels, offers, []);
      var front, last := specs[..|specs| - 1], specs[|specs| - 1];
      var mid := UpsertAll(u, router, front, sync).value;
      UpsertAllFollows(channels, router, front, offers, sync);
      UpsertAllFrame(u, router, front, sync);
      UpsertOneFollows(mid, router, last, sync);
      UpsertOneFrame(mid, router, last, sync);
      OneMoreFollowed(channels, mid, UpsertOne(mid, router, last, sync).value, front, last, sync);
      assert front + [last] == specs;
    }
  }

  /** Every declared channel is followed; no other channel is added or changed. */
  ghost predicate ChannelsFollow(before: map<Ref, Channel>, after: map<Ref, Channel>, specs: seq<ChannelSpec>,
                                 sync: bool, told: seq<Change>) {
    && |told| == |specs|
    && (forall i :: 0 <= i < |specs| ==> Followed(before, after, specs[i], sync, told[i]))
    && (forall a <- after.Keys :: a in before || exists i :: 0 <= i < |specs| && specs[i].ref == a)
    && (forall a <- before.Keys :: (forall i :: 0 <= i < |specs| ==> specs[i].ref != a)
                                   ==> a in after && after[a] == before[a])
  }

  lemma {:induction false} UpsertsFollow(channels: map<Ref, Channel>, router: Router, specs: seq<ChannelSpec>,
                                         offers: seq<nat>, sync: bool)
    requires UpsertAll(Upserts(channels, offers, []), router, specs, sync).Ok? && DistinctSpecs(specs)
    ensures var out := UpsertAll(Upserts(channels, offers, []), router, specs, sync).value;
            ChannelsFollow(channels, out.channels, specs, sync, out.changes)
  {
    var u := Upserts(channels, offers, []);
    UpsertAllFrame(u, router, specs, sync);
    UpsertAllFollows(channels, router, specs, offers, sync);
  }

  // ---- the rulesets ----

  /** The rows of one declared ruleset: its matchers in order, all with its target, its name and its id. */
  ghost predicate WrittenAs(block: RulesetBlock, d: RulesetSpec, managed: bool) {
    && |block.rules| == |d.matchers|
    && forall k :: 0 <= k < |block.rules| ==>
         && block.rules[k].matcher == d.matchers[k] && block.rules[k].target == d.target
         && block.rules[k].name == d.name && block.rules[k].managed == managed && block.rules[k].ruleset == block.id
  }

  /** One block for each declared ruleset, under an id that neither the rows of `old_` nor another block has. */
  ghost predicate BlocksFor(blocks: seq<RulesetBlock>, specs: seq<RulesetSpec>, managed: bool, old_: seq<Rule>) {
    && |blocks| == |specs|
    && (forall i :: 0 <= i < |blocks| ==> WrittenAs(blocks[i], specs[i], managed) && !HasRuleset(old_, blocks[i].id))
    && (forall i, j :: 0 <= i < j < |blocks| && blocks[i].rules != [] ==> blocks[i].id != blocks[j].id)
  }

  lemma {:induction false} NewRowsWritten(base: nat, d: RulesetSpec, rs: Id, managed: bool)
    ensures WrittenAs(RulesetBlock(rs, NewRows(base, d.matchers, d.target, rs, d.name, managed)), d, managed)
  {
  }

  lemma {:induction false} OneMoreBlock(blocks: seq<RulesetBlock>, specs: seq<RulesetSpec>, managed: bool,
                                        old_: seq<Rule>, block: RulesetBlock, d: RulesetSpec)
    requires BlocksFor(blocks, specs, managed, old_) && WrittenAs(block, d, managed)
    requires !HasRuleset(old_ + Flatten(blocks), block.id)
    ensures BlocksFor(blocks + [block], specs + [d], managed, old_)
  {
    RulesetInEither(old_, Flatten(blocks), block.id);
    forall i | 0 <= i < |blocks| && blocks[i].rules != [] ensures blocks[i].id != block.id {
      assert WrittenAs(blocks[i], specs[i], managed);
      Sync.BlockRowsAreRows(blocks, i, blocks[i].rules[0]);
    }
  }

  lemma {:induction false} RulesetInEither(a: seq<Rule>, b: seq<Rule>, rs: Id)
    requires !HasRuleset(a + b, rs)
    ensures !HasRuleset(a, rs) && !HasRuleset(b, rs)
  {
    forall i | 0 <= i < |a| ensures a[i].ruleset != rs {
      assert (a + b)[i].ruleset != rs;
    }
    forall i | 0 <= i < |b| ensures b[i].ruleset != rs {
      assert (a + b)[|a| + i].ruleset != rs;
    }
  }

  lemma {:induction false} AppendOne(rules: seq<Rule>, specs: seq<RulesetSpec>)
    requires specs != []
    ensures var rows, d := AppendRulesets(rules, specs[..|specs| - 1]), specs[|specs| - 1];
            AppendRulesets(rules, specs) == rows + CreatedBlock(rows, d.name, d.target, d.matchers).rules
  {
  }

  lemma {:induction false} AddedBlockFits(rules: seq<Rule>, before: seq<RulesetBlock>, front: seq<RulesetSpec>,
                                          d: RulesetSpec)
    requires BlocksFor(before, front, false, rules)
    ensures var block := CreatedBlock(rules + Flatten(before), d.name, d.target, d.matchers);
            BlocksFor(before + [block], front + [d], false, rules)
  {
    var rows := rules + Flatten(before);
    NewRowsWritten(MaxRule(rows), d, Minted(MaxRuleset(rows) + 1), false);
    FreshRuleset(rows, MaxRuleset(rows) + 1);
    OneMoreBlock(before, front, false, rules, CreatedBlock(rows, d.name, d.target, d.matchers), d);
  }

  lemma {:induction false} OneBehind(rules: seq<Rule>, before: seq<RulesetBlock>, block: RulesetBlock)
    ensures (rules + Flatten(before)) + block.rules == rules + Flatten(before + [block])
  {
    FlattenAppend(before, block);
    Associates(rules, Flatten(before), block.rules);
  }

  /** The blocks a merge adds. */
  lemma {:induction false} AppendedBlocks(rules: seq<Rule>, specs: seq<RulesetSpec>) returns (blocks: seq<RulesetBlock>)
    ensures AppendRulesets(rules, specs) == rules + Flatten(blocks) && BlocksFor(blocks, specs, false, rules)
  {
    if specs == [] {
      blocks := [];
    } else {
      var front, d := specs[..|specs| - 1], specs[|specs| - 1];
      var before := AppendedBlocks(rules, front);
      var block := CreatedBlock(rules + Flatten(before), d.name, d.target, d.matchers);
      AppendOne(rules, specs);
      AddedBlockFits(rules, before, front, d);
      OneBehind(rules, before, block);
      assert front + [d] == specs;
      blocks := before + [block];
    }
  }

  /** Numbered from the start, under ruleset ids up to `n`. */
  ghost predicate NumberedUpTo(rows: seq<Rule>, n: nat) {
    forall i :: 0 <= i < |rows| ==> rows[i].id == Minted(i + 1) && rows[i].ruleset.Minted? && rows[i].ruleset.n <= n
  }

  /** The blocks a restore writes. */
  lemma {:induction false} RestoredBlocks(specs: seq<RulesetSpec>) returns (blocks: seq<RulesetBlock>)
    ensures RestoredRules(specs) == Flatten(blocks) && BlocksFor(blocks, specs, false, [])
    ensures NumberedUpTo(RestoredRules(specs), |specs|)
  {
    if specs == [] {
      blocks := [];
    } else {
      var front, d := specs[..|specs| - 1], specs[|specs| - 1];
      var before := RestoredBlocks(front);
      var block := RestoredBlock(before, front, d);
      blocks := before + [block];
      assert front + [d] == specs;
    }
  }

  lemma {:induction false} RestoredBlock(before: seq<RulesetBlock>, front: seq<RulesetSpec>, d: RulesetSpec)
    returns (block: RulesetBlock)
    requires BlocksFor(before, front, false, []) && NumberedUpTo(Flatten(before), |front|)
    ensures var n, rows := |front| + 1, Flatten(before);
            rows + NewRows(|rows|, d.matchers, d.target, Minted(n), d.name, false) == Flatten(before + [block])
            && NumberedUpTo(Flatten(before + [block]), n)
    ensures BlocksFor(before + [block], front + [d], false, [])
  {
    var n, rows := |front| + 1, Flatten(before);
    block := RulesetBlock(Minted(n), NewRows(|rows|, d.matchers, d.target, Minted(n), d.name, false));
    NewRowsWritten(|rows|, d, Minted(n), false);
    assert [] + rows == rows;
    assert !HasRuleset(rows, Minted(n));
    OneMoreBlock(before, front, false, [], block, d);
    FlattenAppend(before, block);
  }

  // ---- merge ----

  /** What a merge commits: providers and channels added under no mark, declared channels followed, the router section
      followed, and every declared ruleset appended as new rows behind all others. */
  ghost predicate MergeCommits(s: State, t: State, b: Bundle, told: MergeReport) {
    && RouterFollows(s.router, t.router, b, false)
    && (forall p :: p in t.providers <==> p in s.providers || p in b.providers)
    && (forall p <- t.providers.Keys :: t.providers[p] == if p in s.providers then s.providers[p] else false)
    && ChannelsFollow(s.channels, t.channels, b.channels, false, told.changes)
    && (exists added :: t.rules == s.rules + Flatten(added) && BlocksFor(added, b.rulesets, false, s.rules))
    && (forall p :: p in told.providersAdded <==> p in t.providers && p !in s.providers)
    && |told.rulesetsAdded| == |b.rulesets|
    && forall i :: 0 <= i < |b.rulesets| ==> told.rulesetsAdded[i] == b.rulesets[i].name
  }

  lemma {:induction false} MergeDoes(s: State, b: Bundle, offers: seq<nat>)
    requires WellFormedBundle(b) && MergeSetup(s, b, offers).Ok?
    ensures MergeCommits(s, MergeSetup(s, b, offers).value, b, MergeOutcome(s, b, offers))
  {
    var t := MergeSetup(s, b, offers).value;
    UpsertsFollow(s.channels, s.router, b.channels, offers, false);
    RouterAfterFollows(t.channels, s.router, b, false);
    var added := AppendedBlocks(s.rules, b.rulesets);
  }

  // ---- sync ----

  /** Some channel of the provider is there. */
  ghost predicate HasSome(channels: map<Ref, Channel>, provider: string) {
    exists a :: a in channels && a.provider == provider
  }

  /** Named providers are there, new ones under the managed mark; a managed one that is not named goes once it has no
      channel left; all others stay, and marks never change. */
  ghost predicate ProvidersSynced(s: State, t: State, named: seq<string>) {
    && (forall p :: p in t.providers <==>
          || p in named
          || (p in s.providers && (!s.providers[p] || HasSome(t.channels, p))))
    && (forall p <- t.providers.Keys :: t.providers[p] == if p in s.providers then s.providers[p] else true)
  }

  ghost predicate Declared(specs: seq<ChannelSpec>, a: Ref) {
    exists i :: 0 <= i < |specs| && specs[i].ref == a
  }

  ghost predicate Targeted(rules: seq<Rule>, a: Ref) {
    exists i :: 0 <= i < |rules| && rules[i].target == Via(a)
  }

  /** Declared channels are followed, new ones under the managed mark. Of the others an unmanaged one stays as it is,
      and a managed one does exactly if some rule still targets it. */
  ghost predicate ChannelsSynced(s: State, t: State, specs: seq<ChannelSpec>, told: seq<Change>) {
    && |told| == |specs|
    && (forall i :: 0 <= i < |specs| ==> Followed(s.channels, t.channels, specs[i], true, told[i]))
    && (forall a <- t.channels.Keys :: a in s.channels || Declared(specs, a))
    && (forall a <- s.channels.Keys :: !Declared(specs, a) ==>
          && (a in t.channels <==> !s.channels[a].managed || Targeted(t.rules, a))
          && (a in t.channels ==> t.channels[a] == s.channels[a]))
  }

  /** The name a row goes by in a report. */
  function ShownName(r: Rule): string {
    if |r.name| > 0 then r.name else if r.id.Minted? then "r" + Ids.Digits(r.id.n) else r.id.text
  }

  /** Row `i` is the first of those that target the channel to show the name. */
  predicate FirstShown(rules: seq<Rule>, a: Ref, name: string, i: nat) {
    && i < |rules| && rules[i].target == Via(a) && ShownName(rules[i]) == name
    && forall j :: 0 <= j < i && rules[j].target == Via(a) ==> ShownName(rules[j]) != name
  }

  predicate AllShown(rules: seq<Rule>, a: Ref, names: seq<string>) {
    forall i :: 0 <= i < |rules| && rules[i].target == Via(a) ==> ShownName(rules[i]) in names
  }

  predicate Rising(at: seq<nat>, n: nat) {
    && (forall k :: 0 <= k < |at| ==> at[k] < n)
    && (forall k, l :: 0 <= k < l < |at| ==> at[k] < at[l])
  }

  /** `names` are the names of the rows that target the channel, each once, in order: name `k` is first shown by row
      `at[k]`. */
  ghost predicate FirstShownAt(rules: seq<Rule>, a: Ref, names: seq<string>, at: seq<nat>) {
    && AllShown(rules, a, names) && |at| == |names| && Rising(at, |rules|)
    && forall k :: 0 <= k < |at| ==> FirstShown(rules, a, names[k], at[k])
  }

  ghost predicate NamesKeepers(rules: seq<Rule>, a: Ref, names: seq<string>) {
    exists at :: FirstShownAt(rules, a, names, at)
  }

  lemma {:induction false} StillFirstShown(front: seq<Rule>, last: Rule, a: Ref, name: string, i: nat)
    requires FirstShown(front, a, name, i)
    ensures FirstShown(front + [last], a, name, i)
  {
    assert forall j :: 0 <= j < |front| ==> (front + [last])[j] == front[j];
  }

  lemma {:induction false} NewlyShown(front: seq<Rule>, last: Rule, a: Ref, names: seq<string>)
    requires AllShown(front, a, names) && last.target == Via(a)
    ensures ShownName(last) !in names ==> FirstShown(front + [last], a, ShownName(last), |front|)
  {
    assert forall j :: 0 <= j < |front| ==> (front + [last])[j] == front[j];
  }

  lemma {:induction false} NamesOfOneMore(front: seq<Rule>, last: Rule, a: Ref)
    ensures var names := Sync.NamesReferencing(front, a);
            Sync.NamesReferencing(front + [last], a)
            == if last.target == Via(a) && ShownName(last) !in names then names + [ShownName(last)] else names
  {
    assert ShownName(last) == Sync.RowName(last);
    assert (front + [last])[..|front|] == front;
  }

  lemma {:induction false} NamesAreKeepers(rules: seq<Rule>, a: Ref) returns (at: seq<nat>)
    ensures FirstShownAt(rules, a, Sync.NamesReferencing(rules, a), at)
  {
    if rules == [] {
      at := [];
    } else {
      var front, last := rules[..|rules| - 1], rules[|rules| - 1];
      var before := NamesAreKeepers(front, a);
      at := OneMoreKeeper(front, last, a, Sync.NamesReferencing(front, a), before);
      NamesOfOneMore(front, last, a);
      assert front + [last] == rules;
    }
  }

  lemma {:induction false} OneMoreKeeper(front: seq<Rule>, last: Rule, a: Ref, names: seq<string>, before: seq<nat>)
    returns (at: seq<nat>)
    requires FirstShownAt(front, a, names, before)
    ensures FirstShownAt(front + [last], a, if last.target == Via(a) && ShownName(last) !in names
                                            then names + [ShownName(last)] else names, at)
  {
    forall k | 0 <= k < |before| ensures FirstShown(front + [last], a, names[k], before[k]) {
      StillFirstShown(front, last, a, names[k], before[k]);
    }
    at := before;
    if last.target == Via(a) && ShownName(last) !in names {
      NewlyShown(front, last, a, names);
      at := before + [|front|];
    }
  }

  /** The report names what came and went. */
  ghost predicate SyncTold(s: State, t: State, b: Bundle, told: Sync.SyncReport) {
    && (forall p :: p in told.providersAdded <==> p in b.providers && p !in s.providers)
    && (forall p :: p in told.providersPruned <==> p in s.providers && p !in t.providers)
    && (forall a :: a in told.pruned <==> a in s.channels && a !in t.channels)
    && (forall a :: a in told.keptReferenced <==>
          a in s.channels && s.channels[a].managed && !Declared(b.channels, a) && a in t.channels)
    && (forall a <- told.keptReferenced.Keys :: NamesKeepers(t.rules, a, told.keptReferenced[a]))
  }

  /** What a sync commits. */
  ghost predicate SyncCommits(s: State, t: State, b: Bundle, told: Sync.SyncReport) {
    && RouterFollows(s.router, t.router, b, true)
    && ProvidersSynced(s, t, b.providers)
    && ChannelsSynced(s, t, b.channels, told.changes)
    && SyncTold(s, t, b, told)
  }

  lemma {:induction false} ReferencedIsTargeted(rules: seq<Rule>, a: Ref)
    ensures References(rules, {a}) <==> Targeted(rules, a)
  {
    if References(rules, {a}) {
      var i :| 0 <= i < |rules| && rules[i].target.Via? && rules[i].target.ref in {a};
      assert rules[i].target == Via(a);
    }
    if Targeted(rules, a) {
      var i :| 0 <= i < |rules| && rules[i].target == Via(a);
      assert rules[i].target.ref in {a};
    }
  }

  lemma {:induction false} DeclaredIsRef(specs: seq<ChannelSpec>, a: Ref)
    ensures a in BundleRefs(specs) <==> Declared(specs, a)
  {
  }

  /** What pruning and upserting make of the channels. */
  lemma {:induction false} SyncedChannels(s: State, b: Bundle, offers: seq<nat>)
    requires WellFormedBundle(b) && Sync.SyncSetup(s, b, offers).Ok?
    ensures var t := Sync.SyncSetup(s, b, offers).value.0;
            ChannelsSynced(s, t, b.channels, Sync.SyncSetup(s, b, offers).value.1.changes)
  {
    var t, told := Sync.SyncSetup(s, b, offers).value.0, Sync.SyncSetup(s, b, offers).value.1.changes;
    var pruned := Sync.Unreferenced(Sync.Candidates(s.channels, b.channels), t.rules);
    Sync.SyncShape(s, b, offers);
    UpsertsFollow(s.channels - pruned, s.router, b.channels, offers, true);
    forall i | 0 <= i < |b.channels| ensures Followed(s.channels, t.channels, b.channels[i], true, told[i]) {
      DeclaredIsRef(b.channels, b.channels[i].ref);
    }
    forall a | a in s.channels && !Declared(b.channels, a)
      ensures (a in t.channels <==> !s.channels[a].managed || Targeted(t.rules, a))
      ensures a in t.channels ==> t.channels[a] == s.channels[a]
    {
      KeptOrPruned(s.channels, b.channels, t.rules, a);
    }
  }

  /** Pruned are exactly the managed ones that are neither declared nor targeted. */
  lemma {:induction false} KeptOrPruned(channels: map<Ref, Channel>, specs: seq<ChannelSpec>, rules: seq<Rule>, a: Ref)
    requires a in channels
    ensures a in channels - Sync.Unreferenced(Sync.Candidates(channels, specs), rules)
            <==> !channels[a].managed || Declared(specs, a) || Targeted(rules, a)
  {
    DeclaredIsRef(specs, a);
    ReferencedIsTargeted(rules, a);
  }

  lemma {:induction false} NotDeclared(b: Bundle, a: Ref)
    requires WellFormedBundle(b) && a.provider !in b.providers
    ensures a !in BundleRefs(b.channels)
  {
    forall i | 0 <= i < |b.channels| ensures b.channels[i].ref != a {
      assert b.channels[i].ref.provider in b.providers;
    }
  }

  lemma {:induction false} SyncedProviders(s: State, b: Bundle, offers: seq<nat>)
    requires WellFormedBundle(b) && Sync.SyncSetup(s, b, offers).Ok?
    ensures ProvidersSynced(s, Sync.SyncSetup(s, b, offers).value.0, b.providers)
  {
    var t := Sync.SyncSetup(s, b, offers).value.0;
    var channels := s.channels - Sync.Unreferenced(Sync.Candidates(s.channels, b.channels), t.rules);
    Sync.SyncShape(s, b, offers);
    UpsertAllFrame(Upserts(channels, offers, []), s.router, b.channels, true);
    forall p | p !in b.providers ensures Sync.HasChannel(channels, p) <==> HasSome(t.channels, p) {
      if HasSome(t.channels, p) {
        var a :| a in t.channels && a.provider == p;
        NotDeclared(b, a);
        assert a in channels;
      }
      if Sync.HasChannel(channels, p) {
        var a :| a in channels && a.provider == p;
        assert a in t.channels;
      }
    }
  }

  lemma {:induction false} SyncTells(s: State, b: Bundle, offers: seq<nat>)
    requires WellFormedBundle(b) && Sync.SyncSetup(s, b, offers).Ok?
    ensures SyncTold(s, Sync.SyncSetup(s, b, offers).value.0, b, Sync.SyncSetup(s, b, offers).value.1)
  {
    var t, told := Sync.SyncSetup(s, b, offers).value.0, Sync.SyncSetup(s, b, offers).value.1;
    var channels := s.channels - Sync.Unreferenced(Sync.Candidates(s.channels, b.channels), t.rules);
    Sync.SyncShape(s, b, offers);
    UpsertAllFrame(Upserts(channels, offers, []), s.router, b.channels, true);
    forall a ensures a in BundleRefs(b.channels) <==> Declared(b.channels, a) {
      DeclaredIsRef(b.channels, a);
    }
    forall a | a in told.keptReferenced ensures NamesKeepers(t.rules, a, told.keptReferenced[a]) {
      var at := NamesAreKeepers(t.rules, a);
    }
  }

  lemma {:induction false} SyncDoes(s: State, b: Bundle, offers: seq<nat>)
    requires WellFormedBundle(b) && Sync.SyncSetup(s, b, offers).Ok?
    ensures SyncCommits(s, Sync.SyncSetup(s, b, offers).value.0, b, Sync.SyncSetup(s, b, offers).value.1)
  {
    var t := Sync.SyncSetup(s, b, offers).value.0;
    Sync.SyncShape(s, b, offers);
    RouterAfterFollows(t.channels, s.router, b, true);
    SyncedChannels(s, b, offers);
    SyncedProviders(s, b, offers);
    SyncTells(s, b, offers);
  }

  // ---- restore ----

  /** A restored channel: as declared, with no history, on its declared port, else on the one it had, else on a fresh
      one. */
  predicate RestoredAs(before: map<Ref, Channel>, ch: Channel, spec: ChannelSpec) {
    && ch.country == spec.country && ch.city == spec.city && ch.title == spec.title && ch.server == spec.server
    && ch.wg == spec.wg && (ch.enabled <==> spec.enabled != Some(false)) && !ch.managed
    && ch.portHome == None && ch.probe == None && ch.reconnect == None && (ch.portExplicit <==> spec.port != 0)
    && (if spec.port != 0 then ch.port == spec.port
        else if spec.ref in before && before[spec.ref].port != 0 then ch.port == before[spec.ref].port
        else 0 < ch.port <= 65535)
  }

  /** What a restore commits: exactly what the bundle declares, the given toggles, and what a bundle never holds as it
      was. */
  ghost predicate RestoreCommits(s: State, t: State, b: Bundle, killswitch: bool, lanDirect: bool) {
    && t.router == s.router.(killswitch := killswitch, lanDirect := lanDirect, port := t.router.port,
                             portExplicit := t.router.portExplicit)
    && (if b.routerPort != 0 then t.router.port == b.routerPort && t.router.portExplicit
        else t.router.port == s.router.port && t.router.portExplicit == s.router.portExplicit)
    && (forall p :: p in t.providers <==> p in b.providers) && (forall p <- t.providers.Keys :: !t.providers[p])
    && (forall a :: a in t.channels <==> Declared(b.channels, a))
    && (forall i :: 0 <= i < |b.channels| ==> RestoredAs(s.channels, t.channels[b.channels[i].ref], b.channels[i]))
    && NumberedUpTo(t.rules, |b.rulesets|)
    && exists blocks :: t.rules == Flatten(blocks) && BlocksFor(blocks, b.rulesets, false, [])
  }

  lemma {:induction false} RestoredRecords(old_: map<Ref, Channel>, specs: seq<ChannelSpec>, i: nat)
    requires DistinctSpecs(specs) && i < |specs|
    ensures specs[i].ref in RestoredChannels(old_, specs)
    ensures RestoredChannels(old_, specs)[specs[i].ref] == RestoredChannel(old_, specs[i])
  {
    if i < |specs| - 1 {
      assert specs[i].ref != specs[|specs| - 1].ref;
      RestoredRecords(old_, specs[..|specs| - 1], i);
    }
  }

  /** Handing out fresh ports gives portless channels a valid one and leaves everything else alone. */
  lemma {:induction false} FilledPorts(channels: map<Ref, Channel>, router: Router, specs: seq<ChannelSpec>,
                                       offers: seq<nat>, a: Ref)
    requires forall i :: 0 <= i < |specs| ==> specs[i].ref in channels
    requires FillPorts(channels, router, specs, offers).Ok? && a in channels
    ensures var after := FillPorts(channels, router, specs, offers).value.0[a];
            && after == channels[a].(port := after.port)
            && (if channels[a].port != 0 then after.port == channels[a].port
                else if Declared(specs, a) then 0 < after.port <= 65535 else after.port == 0)
  {
    if specs != [] {
      var front, last := specs[..|specs| - 1], specs[|specs| - 1];
      FilledPorts(channels, router, front, offers, a);
      assert specs == front + [last];
      assert Declared(specs, a) <==> Declared(front, a) || last.ref == a by {
        DeclaredIsRef(specs, a);
        DeclaredIsRef(front, a);
        RefsAppend(front, last);
      }
    }
  }

  lemma {:induction false} RestoredOne(before: map<Ref, Channel>, router: Router, specs: seq<ChannelSpec>,
                                       offers: seq<nat>, i: nat)
    requires DistinctSpecs(specs) && i < |specs|
    requires forall k :: 0 <= k < |specs| ==> specs[k].ref in RestoredChannels(before, specs)
    requires FillPorts(RestoredChannels(before, specs), router, specs, offers).Ok?
    ensures var filled := FillPorts(RestoredChannels(before, specs), router, specs, offers).value.0;
            RestoredAs(before, filled[specs[i].ref], specs[i])
  {
    RestoredRecords(before, specs, i);
    FilledPorts(RestoredChannels(before, specs), router, specs, offers, specs[i].ref);
  }

  lemma {:induction false} RestoreDoes(s: State, b: Bundle, killswitch: bool, lanDirect: bool, offers: seq<nat>)
    requires WellFormedBundle(b) && RestoreSetup(s, b, killswitch, lanDirect, offers).Ok?
    ensures RestoreCommits(s, RestoreSetup(s, b, killswitch, lanDirect, offers).value, b, killswitch, lanDirect)
  {
    var t := RestoreSetup(s, b, killswitch, lanDirect, offers).value;
    RestoredHas(s.channels, b.channels);
    var channels := RestoredChannels(s.channels, b.channels);
    var router := if b.routerPort != 0 then s.router.(port := b.routerPort, portExplicit := true) else s.router;
    assert t.channels == FillPorts(channels, router, b.channels, offers).value.0;
    forall i | 0 <= i < |b.channels|
      ensures RestoredAs(s.channels, t.channels[b.channels[i].ref], b.channels[i])
    {
      RestoredOne(s.channels, router, b.channels, offers, i);
    }
    forall a ensures a in BundleRefs(b.channels) <==> Declared(b.channels, a) {
      DeclaredIsRef(b.channels, a);
    }
    var blocks := RestoredBlocks(b.rulesets);
  }

  // ---- what is refused ----

  /** The port of a declared channel can be settled: a stated one is its own already, or valid and nobody else's; a new
      channel without one takes a valid port on offer that nobody has. */
  ghost predicate PortSettles(u: Upserts, router: Router, spec: ChannelSpec) {
    if spec.port != 0 then
      (spec.ref in u.channels && u.channels[spec.ref].port == spec.port)
      || (spec.port <= 65535 && spec.port != router.port
          && forall a :: a in u.channels && a != spec.ref ==> u.channels[a].port != spec.port)
    else
      spec.ref in u.channels
      || (u.offers != [] && 0 < u.offers[0] <= 65535 && u.offers[0] != router.port
          && forall a :: a in u.channels ==> u.channels[a].port != u.offers[0])
  }

  lemma {:induction false} ClaimMeans(channels: map<Ref, Channel>, router: Router, port: nat, ref: Ref)
    requires port != 0
    ensures ClaimOk(channels, router, port, ref)
            <==> port <= 65535 && port != router.port
                 && forall a :: a in channels && a != ref ==> channels[a].port != port
  {
    forall a | a in channels && a != ref && channels[a].port == port
      ensures port in OtherPorts(channels, router, ref)
    {
      assert a in channels - {ref};
    }
  }

  lemma {:induction false} OfferMeans(channels: map<Ref, Channel>, router: Router, offers: seq<nat>)
    ensures OfferOk(channels, router, offers)
            <==> offers != [] && 0 < offers[0] <= 65535 && offers[0] != router.port
                 && forall a :: a in channels ==> channels[a].port != offers[0]
  {
    assert forall a :: a in channels && channels[a].port != 0 ==> channels[a].port in UsedPorts(channels, router);
  }

  /** An upsert pass goes through exactly if every port settles when its turn comes. */
  lemma {:induction false} UpsertAcceptedIff(u: Upserts, router: Router, specs: seq<ChannelSpec>, sync: bool)
    requires specs != []
    ensures UpsertAll(u, router, specs, sync).Ok?
            <==> && UpsertAll(u, router, specs[..|specs| - 1], sync).Ok?
                 && PortSettles(UpsertAll(u, router, specs[..|specs| - 1], sync).value, router, specs[|specs| - 1])
  {
    var before := UpsertAll(u, router, specs[..|specs| - 1], sync);
    if before.Ok? {
      var last := specs[|specs| - 1];
      OfferMeans(before.value.channels, router, before.value.offers);
      if last.port != 0 {
        ClaimMeans(before.value.channels, router, last.port, last.ref);
      }
    }
  }

  /** A rule leads to a channel that is on and that the bundle turns off. */
  ghost predicate DisablesTargeted(s: State, rules: seq<Rule>, specs: seq<ChannelSpec>) {
    exists i, k :: 0 <= i < |specs| && 0 <= k < |rules|
      && specs[i].enabled == Some(false) && rules[k].target == Via(specs[i].ref)
      && (specs[i].ref in s.channels ==> s.channels[specs[i].ref].enabled)
  }

  ghost predicate RouterPortFree(channels: map<Ref, Channel>, router: Router, b: Bundle) {
    b.routerPort == 0 || b.routerPort == router.port
    || forall a :: a in channels ==> channels[a].port != b.routerPort
  }

  lemma {:induction false} RouterAcceptedIff(channels: map<Ref, Channel>, router: Router, b: Bundle, sync: bool)
    ensures RouterAfter(channels, router, b, sync).Ok? <==> RouterPortFree(channels, router, b)
  {
    assert forall a :: a in channels && channels[a].port != 0 ==>
             channels[a].port in UsedPorts(channels, router.(port := 0));
  }

  lemma {:induction false} DisablingMeans(s: State, rules: seq<Rule>, specs: seq<ChannelSpec>)
    ensures References(rules, Disabling(s.channels, specs)) <==> DisablesTargeted(s, rules, specs)
  {
    if References(rules, Disabling(s.channels, specs)) {
      var k :| 0 <= k < |rules| && rules[k].target.Via? && rules[k].target.ref in Disabling(s.channels, specs);
      var i :| 0 <= i < |specs| && specs[i].enabled == Some(false)
          && (specs[i].ref in s.channels ==> s.channels[specs[i].ref].enabled) && specs[i].ref == rules[k].target.ref;
      assert rules[k].target == Via(specs[i].ref);
    }
    if DisablesTargeted(s, rules, specs) {
      var i, k :| 0 <= i < |specs| && 0 <= k < |rules|
          && specs[i].enabled == Some(false) && rules[k].target == Via(specs[i].ref)
          && (specs[i].ref in s.channels ==> s.channels[specs[i].ref].enabled);
      assert specs[i].ref in Disabling(s.channels, specs);
    }
  }

  /** A target is a channel that is there and on, or none. */
  predicate Routable(channels: map<Ref, Channel>, target: Target) {
    target.Via? ==> target.ref in channels && channels[target.ref].enabled
  }

  /** Exactly these four things make a merge fail: a rule of the setup on a channel being turned off, a port that cannot
      be settled, a declared ruleset that leads nowhere, a router port that a channel has. */
  lemma {:induction false} MergeAcceptedIff(s: State, b: Bundle, offers: seq<nat>)
    ensures MergeSetup(s, b, offers).Ok?
            <==> && !DisablesTargeted(s, s.rules, b.channels)
                 && var u := UpsertAll(Upserts(s.channels, offers, []), s.router, b.channels, false);
                    && u.Ok?
                    && (forall i :: 0 <= i < |b.rulesets| ==> Routable(u.value.channels, b.rulesets[i].target))
                    && RouterPortFree(u.value.channels, s.router, b)
  {
    DisablingMeans(s, s.rules, b.channels);
    var u := UpsertAll(Upserts(s.channels, offers, []), s.router, b.channels, false);
    if u.Ok? {
      RouterAcceptedIff(u.value.channels, s.router, b, false);
    }
  }

  /** And these make a sync fail, told about the rules it would write. */
  lemma {:induction false} SyncAcceptedIff(s: State, b: Bundle, offers: seq<nat>)
    requires Grouped(s.rules)
    ensures var build := Sync.NewRules(s, b);
            var rules := Flatten(build.blocks);
            var kept := s.channels - Sync.Unreferenced(Sync.Candidates(s.channels, b.channels), rules);
            var u := UpsertAll(Upserts(kept, offers, []), s.router, b.channels, true);
            Sync.SyncSetup(s, b, offers).Ok?
            <==> && !DisablesTargeted(s, rules, b.channels)
                 && u.Ok?
                 && (forall i :: 0 <= i < |build.pending| ==> Routable(u.value.channels, build.pending[i]))
                 && RouterPortFree(u.value.channels, s.router, b)
  {
    var rules := Flatten(Sync.NewRules(s, b).blocks);
    DisablingMeans(s, rules, b.channels);
    var kept := s.channels - Sync.Unreferenced(Sync.Candidates(s.channels, b.channels), rules);
    var u := UpsertAll(Upserts(kept, offers, []), s.router, b.channels, true);
    if u.Ok? {
      RouterAcceptedIff(u.value.channels, s.router, b, true);
    }
  }
}
