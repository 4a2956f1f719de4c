/** `sync_setup`: converge the managed setup on a bundle in one transaction. */
module SyncSetup {
  import opened Common
  import opened State
  import opened RulesetOps
  import opened Setup
  import opened SyncRules
  import opened SyncRulesFrame
  import opened SyncConvergence
  import opened ChannelIds

  datatype SyncReport = SyncReport(providersAdded: set<string>, providersPruned: set<string>,
                                   changes: seq<Change>, pruned: set<Ref>, keptReferenced: map<Ref, seq<string>>,
                                   rulesetsUnchanged: seq<string>, rulesetsUpdated: seq<string>,
                                   rulesetsPruned: seq<string>, rulesetsAdded: seq<string>)

  /** Managed channels the bundle does not declare. */
  function Candidates(channels: map<Ref, Channel>, specs: seq<ChannelSpec>): set<Ref> {
    set a | a in channels && channels[a].managed && a !in BundleRefs(specs)
  }

  function Unreferenced(refs: set<Ref>, rules: seq<Rule>): set<Ref> {
    set a | a in refs && !References(rules, {a})
  }

  function IdText(id: Id): string {
    match id
    case Minted(n) => "r" + Digits(n)
    case Foreign(text, _) => text
  }

  function RowName(r: Rule): string {
    if r.name != "" then r.name else IdText(r.id)
  }

  /** The names under which rules reference a channel, each once, in order. */
  function NamesReferencing(rules: seq<Rule>, a: Ref): seq<string> {
    if rules == [] then []
    else
      var before := NamesReferencing(rules[..|rules| - 1], a);
      var last := rules[|rules| - 1];
      if last.target == Via(a) && RowName(last) !in before then before + [RowName(last)] else before
  }

  /** The channels kept because rules reference them, and those rules' names. */
  function KeptBy(refs: set<Ref>, rules: seq<Rule>): map<Ref, seq<string>> {
    map a | a in refs :: NamesReferencing(rules, a)
  }

  /** Whatever keeps a channel is named. */
  lemma {:induction false} ReferencedIsNamed(rules: seq<Rule>, a: Ref)
    ensures NamesReferencing(rules, a) != [] <==> References(rules, {a})
  {
    if rules != [] {
      var front, last := rules[..|rules| - 1], rules[|rules| - 1];
      ReferencedIsNamed(front, a);
      if References(front, {a}) {
        var i :| 0 <= i < |front| && front[i].target.Via? && front[i].target.ref in {a};
        assert rules[i] == front[i];
      }
      if last.target == Via(a) {
        assert rules[|rules| - 1].target.ref in {a};
      }
    }
  }

  predicate HasChannel(channels: map<Ref, Channel>, provider: string) {
    exists a <- channels.Keys :: a.provider == provider
  }

  /** Managed providers the bundle dropped that have no channel left. */
  function Dropped(providers: map<string, bool>, channels: map<Ref, Channel>, named: seq<string>): set<string> {
    set p | p in providers && p !in named && providers[p] && !HasChannel(channels, p)
  }

  /** The bundle's providers that are missing are created under the managed mark. */
  function WithProviders(providers: map<string, bool>, named: seq<string>): map<string, bool> {
    map p | p in providers.Keys + (set q | q in named) :: if p in providers then providers[p] else true
  }

  function NewRules(s: State, b: Bundle): Build {
    FlattenRuns(s.rules);
    Converge(Runs(s.rules), b.rulesets, MaxRule(s.rules), MaxRuleset(s.rules))
  }

  predicate AllTargetsOk(channels: map<Ref, Channel>, pending: seq<Target>) {
    forall i :: 0 <= i < |pending| ==> TargetOk(channels, pending[i])
  }

  /** The committed state and report, or the error that leaves the state as it was. */
  function SyncSetup(s: State, b: Bundle, offers: seq<nat>): Result<(State, SyncReport), string> {
    if !Grouped(s.rules) then Err("rulesets are not contiguous")
    else
      var disabling := Disabling(s.channels, b.channels);
      var build := NewRules(s, b);
      var rules := Flatten(build.blocks);
      var candidates := Candidates(s.channels, b.channels);
      var pruned := Unreferenced(candidates, rules);
      var channels := s.channels - pruned;
      var dropped := Dropped(s.providers, channels, b.providers);
      var providers := WithProviders(s.providers - dropped, b.providers);
      match UpsertAll(Upserts(channels, offers, []), s.router, b.channels, true)
      case Err(e) => Err(e)
      case Ok(u) =>
        if !AllTargetsOk(u.channels, build.pending) then Err("no such channel to route to")
        else if References(rules, disabling) then Err("referenced")
        else
          match RouterAfter(u.channels, s.router, b, true)
          case Err(e) => Err(e)
          case Ok(router) =>
            Ok((State(providers, u.channels, router, rules),
                SyncReport((set q | q in b.providers && q !in s.providers), dropped, u.changes, pruned,
                           KeptBy(candidates - pruned, rules),
                           build.kept, build.updated, build.pruned, build.added)))
  }

  // ---- the invariants survive ----

  lemma {:induction false} FlattenMember(bs: seq<RulesetBlock>, i: nat) returns (j: nat)
    requires i < |Flatten(bs)|
    ensures j < |bs| && Flatten(bs)[i] in bs[j].rules
  {
    var front, last := bs[..|bs| - 1], bs[|bs| - 1];
    if i < |Flatten(front)| {
      j := FlattenMember(front, i);
    } else {
      j := |bs| - 1;
    }
  }

  lemma {:induction false} BlockRowsAreRows(bs: seq<RulesetBlock>, j: nat, r: Rule)
    requires j < |bs| && r in bs[j].rules
    ensures r in Flatten(bs)
  {
    if j < |bs| - 1 {
      BlockRowsAreRows(bs[..|bs| - 1], j, r);
    }
  }

  lemma {:induction false} OneDisables(u: Upserts, router: Router, spec: ChannelSpec, sync: bool, a: Ref)
    requires UpsertOne(u, router, spec, sync).Ok? && a in u.channels && u.channels[a].enabled
    ensures a in UpsertOne(u, router, spec, sync).value.channels
    ensures !UpsertOne(u, router, spec, sync).value.channels[a].enabled
            ==> spec.ref == a && spec.enabled == Some(false)
  {
    UpsertOneFrame(u, router, spec, sync);
    UpsertOneSettles(u, router, spec, sync);
  }

  lemma {:induction false} OnlyExplicitDisables(u: Upserts, router: Router, specs: seq<ChannelSpec>, sync: bool, a: Ref)
    requires UpsertAll(u, router, specs, sync).Ok? && a in u.channels && u.channels[a].enabled
    ensures a in UpsertAll(u, router, specs, sync).value.channels
    ensures !UpsertAll(u, router, specs, sync).value.channels[a].enabled
            ==> exists i :: 0 <= i < |specs| && specs[i].ref == a && specs[i].enabled == Some(false)
  {
    UpsertAllFrame(u, router, specs, sync);
    if specs != [] {
      var front, last := specs[..|specs| - 1], specs[|specs| - 1];
      OnlyExplicitDisables(u, router, front, sync, a);
      var before := UpsertAll(u, router, front, sync).value;
      if before.channels[a].enabled {
        OneDisables(before, router, last, sync, a);
        assert last == specs[|specs| - 1];
      } else {
        var i :| 0 <= i < |front| && front[i].ref == a && front[i].enabled == Some(false);
        assert specs[i] == front[i];
      }
    }
  }

  /** A row of the new list that was there before, or whose target is checked at the end. */
  lemma {:induction false} NewRowsKnown(s: State, b: Bundle, i: nat)
    requires Grouped(s.rules) && i < |Flatten(NewRules(s, b).blocks)|
    ensures Flatten(NewRules(s, b).blocks)[i] in s.rules
            || Flatten(NewRules(s, b).blocks)[i].target in NewRules(s, b).pending
  {
    FlattenRuns(s.rules);
    ConvergeKnown(Runs(s.rules), b.rulesets, MaxRule(s.rules), MaxRuleset(s.rules), |b.rulesets|);
    RowsOfKnownBlocks(Runs(s.rules), NewRules(s, b), i);
  }

  lemma {:induction false} RowsOfKnownBlocks(bs: seq<RulesetBlock>, build: Build, i: nat)
    requires TargetsKnown(bs, build) && i < |Flatten(build.blocks)|
    ensures Flatten(build.blocks)[i] in Flatten(bs) || Flatten(build.blocks)[i].target in build.pending
  {
    var j := FlattenMember(build.blocks, i);
    var block, r := build.blocks[j], Flatten(build.blocks)[i];
    if block in bs {
      var k :| 0 <= k < |bs| && bs[k] == block;
      BlockRowsAreRows(bs, k, r);
    } else {
      assert BlockPending(block, build.pending);
    }
  }

  lemma {:induction false} SyncKeepsTarget(s: State, b: Bundle, offers: seq<nat>, i: nat)
    requires Inv(s) && SyncSetup(s, b, offers).Ok? && i < |SyncSetup(s, b, offers).value.0.rules|
    ensures var t := SyncSetup(s, b, offers).value.0; TargetOk(t.channels, t.rules[i].target)
  {
    var t := SyncSetup(s, b, offers).value.0;
    var r := t.rules[i];
    var build := NewRules(s, b);
    NewRowsKnown(s, b, i);
    if r.target.Via? && r.target !in build.pending {
      var k :| 0 <= k < |s.rules| && s.rules[k] == r;
      assert TargetOk(s.channels, s.rules[k].target);
      var a := r.target.ref;
      assert References(t.rules, {a});
      var pruned := Unreferenced(Candidates(s.channels, b.channels), t.rules);
      assert a !in pruned;
      OnlyExplicitDisables(Upserts(s.channels - pruned, offers, []), s.router, b.channels, true, a);
      NotDisabling(s.channels, b.channels, t.rules, i);
    }
  }

  /** No surviving rule targets a channel the bundle disables. */
  lemma {:induction false} NotDisabling(channels: map<Ref, Channel>, specs: seq<ChannelSpec>, rules: seq<Rule>, i: nat)
    requires i < |rules| && rules[i].target.Via? && !References(rules, Disabling(channels, specs))
    requires rules[i].target.ref in channels && channels[rules[i].target.ref].enabled
    ensures forall m :: 0 <= m < |specs| && specs[m].ref == rules[i].target.ref ==> specs[m].enabled != Some(false)
  {
    assert rules[i].target.ref !in Disabling(channels, specs);
  }

  lemma {:induction false} RunIdsBounded(rules: seq<Rule>)
    requires Grouped(rules)
    ensures forall i :: 0 <= i < |Runs(rules)| ==> Num(Runs(rules)[i].id) <= MaxRuleset(rules)
  {
    FlattenRuns(rules);
    RunsWellBlocked(rules);
    forall i | 0 <= i < |Runs(rules)| ensures Num(Runs(rules)[i].id) <= MaxRuleset(rules) {
      assert Runs(rules)[i].Uniform();
      BlockRowsAreRows(Runs(rules), i, Runs(rules)[i].rules[0]);
    }
  }

  lemma {:induction false} SyncKeepsRules(s: State, b: Bundle)
    requires Grouped(s.rules) && UniqueIds(s.rules)
    ensures WellBlocked(NewRules(s, b).blocks)
    ensures Grouped(Flatten(NewRules(s, b).blocks)) && UniqueIds(Flatten(NewRules(s, b).blocks))
    ensures Runs(Flatten(NewRules(s, b).blocks)) == NewRules(s, b).blocks
  {
    FlattenRuns(s.rules);
    RunsWellBlocked(s.rules);
    RunIdsBounded(s.rules);
    ConvergeWellBlocked(Runs(s.rules), b.rulesets, MaxRule(s.rules), MaxRuleset(s.rules));
    ConvergeUnique(Runs(s.rules), b.rulesets, MaxRuleset(s.rules));
    FlattenGrouped(NewRules(s, b).blocks);
    RunsOfFlatten(NewRules(s, b).blocks);
  }

  /** A sync keeps every standing invariant. */
  lemma {:induction false} SyncKeepsInv(s: State, b: Bundle, offers: seq<nat>)
    requires Inv(s) && WellFormedBundle(b) && SyncSetup(s, b, offers).Ok?
    ensures Inv(SyncSetup(s, b, offers).value.0)
  {
    var t := SyncSetup(s, b, offers).value.0;
    SyncKeepsRules(s, b);
    forall i | 0 <= i < |t.rules| ensures TargetOk(t.channels, t.rules[i].target) {
      SyncKeepsTarget(s, b, offers, i);
    }
    var pruned := Unreferenced(Candidates(s.channels, b.channels), t.rules);
    RemovalKeepsPorts(s.channels, s.router, pruned);
    var u := Upserts(s.channels - pruned, offers, []);
    UpsertAllKeepsPorts(u, s.router, b.channels, true);
    RouterAfterKeepsPorts(t.channels, s.router, b, true);
    UpsertAllFrame(u, s.router, b.channels, true);
    SyncProviders(s, b, offers);
  }

  lemma {:induction false} SyncProviders(s: State, b: Bundle, offers: seq<nat>)
    requires ProvidersExist(s.providers, s.channels) && WellFormedBundle(b) && SyncSetup(s, b, offers).Ok?
    ensures var t := SyncSetup(s, b, offers).value.0; ProvidersExist(t.providers, t.channels)
  {
    var t := SyncSetup(s, b, offers).value.0;
    var pruned := Unreferenced(Candidates(s.channels, b.channels), t.rules);
    var u := Upserts(s.channels - pruned, offers, []);
    UpsertAllFrame(u, s.router, b.channels, true);
    forall a <- t.channels.Keys ensures a.provider in t.providers {
      if a in BundleRefs(b.channels) {
        var i :| 0 <= i < |b.channels| && b.channels[i].ref == a;
        assert b.channels[i].ref.provider in b.providers;
      } else {
        assert a in u.channels;
        assert HasChannel(u.channels, a.provider);
      }
    }
  }

  // ---- only managed state is touched ----

  /** Hand-made rulesets, unmanaged channels outside the bundle, and exactly the referenced leftovers survive. */
  lemma {:induction false} SyncTouchesOnlyManaged(s: State, b: Bundle, offers: seq<nat>)
    requires Inv(s) && WellFormedBundle(b) && SyncSetup(s, b, offers).Ok?
    ensures var t := SyncSetup(s, b, offers).value.0;
            && HandMade(Runs(t.rules)) == HandMade(Runs(s.rules))
            && (forall a <- s.channels.Keys :: a !in BundleRefs(b.channels) && !s.channels[a].managed
                  ==> a in t.channels && t.channels[a] == s.channels[a])
            && (forall a <- s.channels.Keys :: a !in BundleRefs(b.channels) && s.channels[a].managed
                  ==> (a in t.channels <==> References(t.rules, {a}))
                      && (a in t.channels ==> t.channels[a] == s.channels[a]))
            && (forall a <- t.channels.Keys :: a in s.channels ==> t.channels[a].managed == s.channels[a].managed)
  {
    var t := SyncSetup(s, b, offers).value.0;
    SyncShape(s, b, offers);
    SyncKeepsHandMade(s, b);
    PruneThenUpsert(s.channels, s.router, b.channels, t.rules, offers);
  }

  lemma {:induction false} SyncKeepsHandMade(s: State, b: Bundle)
    requires Inv(s)
    ensures HandMade(Runs(Flatten(NewRules(s, b).blocks))) == HandMade(Runs(s.rules))
  {
    SyncKeepsRules(s, b);
    FlattenRuns(s.rules);
    ConvergeKeepsHandMade(Runs(s.rules), b.rulesets, MaxRule(s.rules), MaxRuleset(s.rules));
  }

  /** Pruning what no rule references, then upserting the bundle: what becomes of each channel. */
  lemma {:induction false} PruneThenUpsert(before: map<Ref, Channel>, router: Router, specs: seq<ChannelSpec>,
                                           rules: seq<Rule>, offers: seq<nat>)
    requires UpsertAll(Upserts(before - Unreferenced(Candidates(before, specs), rules), offers, []), router, specs,
                       true).Ok?
    ensures var kept := before - Unreferenced(Candidates(before, specs), rules);
            var after := UpsertAll(Upserts(kept, offers, []), router, specs, true).value.channels;
            && (forall a <- before.Keys :: a !in BundleRefs(specs) && !before[a].managed ==>
                  a in after && after[a] == before[a])
            && (forall a <- before.Keys :: a !in BundleRefs(specs) && before[a].managed
                  ==> (a in after <==> References(rules, {a})) && (a in after ==> after[a] == before[a]))
            && (forall a <- after.Keys :: a in before ==> after[a].managed == before[a].managed)
  {
    var kept := before - Unreferenced(Candidates(before, specs), rules);
    UpsertAllFrame(Upserts(kept, offers, []), router, specs, true);
  }

  // ---- idempotence ----

  /** Nothing added, updated or pruned. */
  predicate QuietReport(r: SyncReport) {
    && r.providersAdded == {} && r.providersPruned == {} && r.pruned == {}
    && (forall i :: 0 <= i < |r.changes| ==> r.changes[i] == Unchanged)
    && r.rulesetsUpdated == [] && r.rulesetsPruned == [] && r.rulesetsAdded == []
  }

  lemma {:induction false} SettledUpserts(channels: map<Ref, Channel>, router: Router, specs: seq<ChannelSpec>,
                                          offers: seq<nat>, router2: Router, offers2: seq<nat>)
    requires forall i, j :: 0 <= i < j < |specs| ==> specs[i].ref != specs[j].ref
    requires UpsertAll(Upserts(channels, offers, []), router, specs, true).Ok?
    ensures var cs := UpsertAll(Upserts(channels, offers, []), router, specs, true).value.channels;
            && Disabling(cs, specs) == {}
            && UpsertAll(Upserts(cs, offers2, []), router2, specs, true)
               == Ok(Upserts(cs, offers2, Unchangeds(|specs|)))
  {
    var cs := UpsertAll(Upserts(channels, offers, []), router, specs, true).value.channels;
    forall i | 0 <= i < |specs| ensures Settled(cs, specs[i], true) {
      UpsertAllSettles(Upserts(channels, offers, []), router, specs, true, i);
    }
    SettledPassIsIdentity(Upserts(cs, offers2, []), router2, specs, true);
    assert [] + Unchangeds(|specs|) == Unchangeds(|specs|);
    forall i | 0 <= i < |specs| && specs[i].enabled == Some(false) ensures !cs[specs[i].ref].enabled {
      assert Settled(cs, specs[i], true);
    }
  }

  /** What pruning and creating leave to prune or create: nothing. */
  lemma {:induction false} NothingLeftToPrune(providers: map<string, bool>, old_: map<Ref, Channel>,
                                              cs: map<Ref, Channel>, rules: seq<Rule>, b: Bundle)
    requires ProvidersExist(providers, old_)
    requires var channels := old_ - Unreferenced(Candidates(old_, b.channels), rules);
             TouchesOnly(channels, cs, BundleRefs(b.channels))
    ensures Unreferenced(Candidates(cs, b.channels), rules) == {}
    ensures var channels := old_ - Unreferenced(Candidates(old_, b.channels), rules);
            var out := WithProviders(providers - Dropped(providers, channels, b.providers), b.providers);
            Dropped(out, cs, b.providers) == {} && WithProviders(out, b.providers) == out
  {
    var channels := old_ - Unreferenced(Candidates(old_, b.channels), rules);
    var out := WithProviders(providers - Dropped(providers, channels, b.providers), b.providers);
    forall p | p in out && p !in b.providers && out[p] ensures HasChannel(cs, p) {
      assert HasChannel(channels, p);
      var a :| a in channels && a.provider == p;
      assert a in cs;
    }
    forall a | a in Candidates(cs, b.channels) ensures References(rules, {a}) {
      assert a in channels;
    }
  }

  /** What a committed sync put together. */
  lemma {:induction false} SyncShape(s: State, b: Bundle, offers: seq<nat>)
    requires SyncSetup(s, b, offers).Ok?
    ensures Grouped(s.rules)
    ensures var t := SyncSetup(s, b, offers).value.0;
            var channels := s.channels - Unreferenced(Candidates(s.channels, b.channels), t.rules);
            && t.rules == Flatten(NewRules(s, b).blocks)
            && UpsertAll(Upserts(channels, offers, []), s.router, b.channels, true).Ok?
            && t.channels == UpsertAll(Upserts(channels, offers, []), s.router, b.channels, true).value.channels
            && t.providers == WithProviders(s.providers - Dropped(s.providers, channels, b.providers), b.providers)
            && RouterAfter(t.channels, s.router, b, true) == Ok(t.router)
  {
  }

  lemma {:induction false} SecondSyncChannels(s: State, b: Bundle, offers: seq<nat>, offers2: seq<nat>)
    requires Inv(s) && WellFormedBundle(b) && SyncSetup(s, b, offers).Ok?
    ensures var t := SyncSetup(s, b, offers).value.0;
            && Unreferenced(Candidates(t.channels, b.channels), t.rules) == {}
            && Dropped(t.providers, t.channels, b.providers) == {}
            && WithProviders(t.providers, b.providers) == t.providers
            && Disabling(t.channels, b.channels) == {}
            && UpsertAll(Upserts(t.channels, offers2, []), t.router, b.channels, true)
               == Ok(Upserts(t.channels, offers2, Unchangeds(|b.channels|)))
  {
    SyncShape(s, b, offers);
    var t := SyncSetup(s, b, offers).value.0;
    var channels := s.channels - Unreferenced(Candidates(s.channels, b.channels), t.rules);
    UpsertAllFrame(Upserts(channels, offers, []), s.router, b.channels, true);
    SettledUpserts(channels, s.router, b.channels, offers, t.router, offers2);
    NothingLeftToPrune(s.providers, s.channels, t.channels, t.rules, b);
  }

  lemma {:induction false} SecondSyncRouter(channels: map<Ref, Channel>, router: Router, b: Bundle)
    requires RouterAfter(channels, router, b, true).Ok?
    ensures var r := RouterAfter(channels, router, b, true).value; RouterAfter(channels, r, b, true) == Ok(r)
  {
  }

  lemma {:induction false} SecondSyncRules(s: State, b: Bundle, t: State)
    requires Grouped(s.rules) && UniqueIds(s.rules) && t.rules == Flatten(NewRules(s, b).blocks)
             && AllComplete(b.rulesets)
    ensures Grouped(t.rules) && Flatten(NewRules(t, b).blocks) == t.rules
    ensures Quiet(NewRules(t, b)) && NewRules(t, b).pending == []
  {
    SyncKeepsRules(s, b);
    FlattenRuns(s.rules);
    ConvergeIdempotent(Runs(s.rules), b.rulesets, MaxRule(s.rules), MaxRuleset(s.rules), MaxRule(t.rules),
                       MaxRuleset(t.rules));
  }

  /** After one successful sync of a complete bundle a second sync of it succeeds, changes nothing in the
      state and reports nothing added, updated or pruned, whatever the port allocator would offer. */
  lemma {:induction false} SyncIdempotent(s: State, b: Bundle, offers: seq<nat>, offers2: seq<nat>)
    requires Inv(s) && WellFormedBundle(b) && AllComplete(b.rulesets)
    requires SyncSetup(s, b, offers).Ok?
    ensures var t := SyncSetup(s, b, offers).value.0;
            var again := SyncSetup(t, b, offers2);
            again.Ok? && again.value.0 == t && QuietReport(again.value.1)
  {
    SyncShape(s, b, offers);
    var t := SyncSetup(s, b, offers).value.0;
    SecondSyncRules(s, b, t);
    SecondSyncChannels(s, b, offers, offers2);
    SecondSyncRouter(t.channels, s.router, b);
    QuietSecond(t, b, offers2);
  }

  /** A sync that finds everything in place commits the state it found. */
  lemma {:induction false} QuietSecond(t: State, b: Bundle, offers: seq<nat>)
    requires Grouped(t.rules) && Flatten(NewRules(t, b).blocks) == t.rules && Quiet(NewRules(t, b))
             && NewRules(t, b).pending == []
    requires Unreferenced(Candidates(t.channels, b.channels), t.rules) == {}
    requires Dropped(t.providers, t.channels, b.providers) == {}
             && WithProviders(t.providers, b.providers) == t.providers
    requires Disabling(t.channels, b.channels) == {}
    requires UpsertAll(Upserts(t.channels, offers, []), t.router, b.channels, true)
             == Ok(Upserts(t.channels, offers, Unchangeds(|b.channels|)))
    requires RouterAfter(t.channels, t.router, b, true) == Ok(t.router)
    ensures SyncSetup(t, b, offers).Ok? && SyncSetup(t, b, offers).value.0 == t
            && QuietReport(SyncSetup(t, b, offers).value.1)
  {
    assert t.channels - {} == t.channels && t.providers - {} == t.providers;
    assert !References(t.rules, {});
    forall q | q in b.providers ensures q in t.providers {
      assert q in WithProviders(t.providers, b.providers);
    }
  }

  lemma {:induction false} QuietReportQuietRules(s: State, b: Bundle, offers: seq<nat>)
    requires SyncSetup(s, b, offers).Ok? && QuietReport(SyncSetup(s, b, offers).value.1)
    ensures Quiet(NewRules(s, b))
  {
  }

  lemma {:induction false} QuietSyncMeansComplete(t: State, b: Bundle, offers: seq<nat>)
    requires Grouped(t.rules) && SyncSetup(t, b, offers).Ok? && QuietReport(SyncSetup(t, b, offers).value.1)
    ensures AllComplete(b.rulesets)
  {
    FlattenRuns(t.rules);
    QuietReportQuietRules(t, b, offers);
    QuietMeansComplete(Runs(t.rules), b.rulesets, MaxRule(t.rules), MaxRuleset(t.rules));
  }

  /** When exactly a second sync finds nothing to do: every bundle ruleset has a name and a matcher. */
  lemma {:induction false} SecondSyncQuietIff(s: State, b: Bundle, offers: seq<nat>, offers2: seq<nat>)
    requires Inv(s) && WellFormedBundle(b) && SyncSetup(s, b, offers).Ok?
    ensures var again := SyncSetup(SyncSetup(s, b, offers).value.0, b, offers2);
            AllComplete(b.rulesets) <==> again.Ok? && QuietReport(again.value.1)
  {
    var t := SyncSetup(s, b, offers).value.0;
    if AllComplete(b.rulesets) {
      SyncIdempotent(s, b, offers, offers2);
    }
    if SyncSetup(t, b, offers2).Ok? && QuietReport(SyncSetup(t, b, offers2).value.1) {
      SyncKeepsInv(s, b, offers);
      QuietSyncMeansComplete(t, b, offers2);
    }
  }
}
