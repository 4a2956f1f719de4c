/** What a sync makes of the rulesets: exactly the declared ones stand under the managed mark. */
module SyncedRulesets {
  import opened Common
  import opened State
  import opened RulesetOps
  import opened Setup
  import opened SyncRules
  import opened SyncRulesFrame
  import Sync = SyncSetup
  import Loops = StoreLoops

  /** A block of managed rows that says what the bundle declares, under the declared name. */
  ghost predicate StandsFor(b: RulesetBlock, d: RulesetSpec) {
    && b.rules != [] && |b.rules| == |d.matchers|
    && (b.rules[0].name == d.name || (b.rules[0].name == "" && TargetName(d.target) == d.name))
    && forall k :: 0 <= k < |b.rules| ==>
         && b.rules[k].matcher == d.matchers[k] && b.rules[k].target == d.target && b.rules[k].managed
         && b.rules[k].ruleset == b.id
  }

  ghost predicate HasManagedRow(b: RulesetBlock) {
    exists k :: 0 <= k < |b.rules| && b.rules[k].managed
  }

  /** Entry `i` of the bundle stands in block `at[i]`: each in its own, entries of one name in their order, and no other
      block has a managed row. */
  ghost predicate StandAt(bs: seq<RulesetBlock>, ds: seq<RulesetSpec>, at: seq<nat>) {
    && |at| == |ds|
    && (forall i :: 0 <= i < |ds| ==> at[i] < |bs| && StandsFor(bs[at[i]], ds[i]))
    && (forall i, j :: 0 <= i < j < |ds| ==> at[i] != at[j] && (ds[i].name == ds[j].name ==> at[i] < at[j]))
    && (forall k :: 0 <= k < |bs| && HasManagedRow(bs[k]) ==> k in at)
  }

  lemma {:induction false} IdenticalStands(b: RulesetBlock, d: RulesetSpec)
    requires b.Uniform() && Identical(b, d) && b.Name() == d.name
    ensures StandsFor(b, d)
  {
  }

  /** The block that stands for entry `i`: the one of its name with the same ordinal. */
  lemma {:induction false} BlockFor(bs: seq<RulesetBlock>, ds: seq<RulesetSpec>, i: nat) returns (j: nat)
    requires WellBlocked(bs) && NonEmptyBlocks(bs) && AllRealized(bs, ds) && i < |ds| && Claimed(bs, ds, i)
    ensures FoundAt(bs, ds, i, j)
  {
    j := NthManaged(bs, ds[i].name, SpecsNamed(ds, ds[i].name, i), |bs|);
    NthSpecAt(ds, i, |ds|);
    assert Realized(bs, ds, j);
    IdenticalStands(bs[j], ds[i]);
  }

  lemma {:induction false} SpecsNamedGrows(ds: seq<RulesetSpec>, i: nat, j: nat)
    requires i < j <= |ds|
    ensures SpecsNamed(ds, ds[i].name, i) < SpecsNamed(ds, ds[i].name, j)
  {
    SpecsNamedMonotone(ds, ds[i].name, i + 1, j);
  }

  /** Entries of one name stand in their order. */
  lemma {:induction false} OrderedByName(bs: seq<RulesetBlock>, ds: seq<RulesetSpec>, i: nat, j: nat, a: nat, b: nat)
    requires NonEmptyBlocks(bs) && i < j < |ds| && ds[i].name == ds[j].name && a < |bs| && b < |bs|
    requires ManagedNamed(bs, ds[i].name, a) == SpecsNamed(ds, ds[i].name, i)
    requires ManagedNamed(bs, ds[i].name, b) == SpecsNamed(ds, ds[i].name, j)
    ensures a < b
  {
    SpecsNamedGrows(ds, i, j);
    if b <= a {
      Loops.ManagedNamedStrict(bs, ds[i].name, b, a);
    }
  }

  /** A managed block stands for the entry it is matched with, and for it alone. */
  lemma {:induction false} ManagedStandsAt(bs: seq<RulesetBlock>, ds: seq<RulesetSpec>, k: nat, i: nat, j: nat)
    requires NonEmptyBlocks(bs) && k < |bs| && j < |bs| && i < |ds| && bs[k].AnyManaged()
    requires MatchOf(bs, ds, k) == Some(i)
    requires bs[j].AnyManaged() && bs[j].Name() == ds[i].name
    requires ManagedNamed(bs, ds[i].name, j) == SpecsNamed(ds, ds[i].name, i)
    ensures j == k
  {
    if j < k {
      Loops.ManagedNamedStrict(bs, ds[i].name, j, k);
    }
    if k < j {
      Loops.ManagedNamedStrict(bs, ds[i].name, k, j);
    }
  }

  /** Block `j` is the one matched with entry `i`. */
  ghost predicate FoundAt(bs: seq<RulesetBlock>, ds: seq<RulesetSpec>, i: nat, j: nat)
    requires NonEmptyBlocks(bs) && i < |ds|
  {
    && j < |bs| && StandsFor(bs[j], ds[i]) && MatchOf(bs, ds, j) == Some(i)
    && bs[j].AnyManaged() && bs[j].Name() == ds[i].name
    && ManagedNamed(bs, ds[i].name, j) == SpecsNamed(ds, ds[i].name, i)
  }

  ghost predicate FoundUpTo(bs: seq<RulesetBlock>, ds: seq<RulesetSpec>, at: seq<nat>)
    requires NonEmptyBlocks(bs) && |at| <= |ds|
  {
    forall i :: 0 <= i < |at| ==> FoundAt(bs, ds, i, at[i])
  }

  lemma {:induction false} FindAll(bs: seq<RulesetBlock>, ds: seq<RulesetSpec>, n: nat) returns (at: seq<nat>)
    requires WellBlocked(bs) && NonEmptyBlocks(bs) && AllRealized(bs, ds) && n <= |ds|
    requires forall i :: 0 <= i < |ds| ==> Claimed(bs, ds, i)
    ensures |at| == n && FoundUpTo(bs, ds, at)
  {
    at := [];
    if n > 0 {
      var before := FindAll(bs, ds, n - 1);
      var j := BlockFor(bs, ds, n - 1);
      at := before + [j];
    }
  }

  lemma {:induction false} FoundStand(bs: seq<RulesetBlock>, ds: seq<RulesetSpec>, at: seq<nat>)
    requires NonEmptyBlocks(bs) && AllRealized(bs, ds) && |at| == |ds| && FoundUpTo(bs, ds, at)
    ensures StandAt(bs, ds, at)
  {
    forall i, j | 0 <= i < j < |ds|
      ensures at[i] != at[j] && (ds[i].name == ds[j].name ==> at[i] < at[j])
    {
      if ds[i].name == ds[j].name {
        OrderedByName(bs, ds, i, j, at[i], at[j]);
      }
    }
    forall k | 0 <= k < |bs| && HasManagedRow(bs[k]) ensures k in at {
      assert Realized(bs, ds, k);
      var i := MatchOf(bs, ds, k).value;
      ManagedStandsAt(bs, ds, k, i, at[i]);
    }
  }

  /** After the sync of a complete bundle its rulesets are the managed ones, each standing exactly as declared. */
  lemma {:induction false} DeclaredStand(s: State, b: Bundle, offers: seq<nat>) returns (at: seq<nat>)
    requires Inv(s) && WellFormedBundle(b) && AllComplete(b.rulesets) && Sync.SyncSetup(s, b, offers).Ok?
    ensures StandAt(Runs(Sync.SyncSetup(s, b, offers).value.0.rules), b.rulesets, at)
  {
    var t := Sync.SyncSetup(s, b, offers).value.0;
    Sync.SyncShape(s, b, offers);
    Sync.SyncKeepsRules(s, b);
    FlattenRuns(s.rules);
    ConvergedRealizes(Runs(s.rules), b.rulesets, MaxRule(s.rules), MaxRuleset(s.rules));
    at := FindAll(Runs(t.rules), b.rulesets, |b.rulesets|);
    FoundStand(Runs(t.rules), b.rulesets, at);
  }

  // ---- where the rulesets stand ----

  predicate Increasing(pos: seq<nat>, n: nat) {
    && (forall p, q :: 0 <= p < q < |pos| ==> pos[p] < pos[q])
    && (forall p :: 0 <= p < |pos| ==> pos[p] < n)
  }

  /** The blocks of `out` are the surviving ones of `bs`, in their old order: block `p` is the one that stood at
      `pos[p]`, and what has no managed row survives unchanged. */
  ghost predicate Survivors(bs: seq<RulesetBlock>, n: nat, out: seq<RulesetBlock>, pos: seq<nat>)
    requires n <= |bs|
  {
    && |pos| == |out| && Increasing(pos, n)
    && (forall p :: 0 <= p < |pos| ==> out[p].id == bs[pos[p]].id)
    && (forall j :: 0 <= j < n && !HasManagedRow(bs[j]) ==> bs[j] in out && j in pos)
  }

  lemma {:induction false} OneMoreSurvives(bs: seq<RulesetBlock>, j: nat, out: seq<RulesetBlock>, pos: seq<nat>,
                                           b: RulesetBlock)
    requires j < |bs| && Survivors(bs, j, out, pos) && b.id == bs[j].id && (!HasManagedRow(bs[j]) ==> b == bs[j])
    ensures Survivors(bs, j + 1, out + [b], pos + [j])
  {
    var more := pos + [j];
    assert more[|pos|] == j;
    forall i | 0 <= i < j && !HasManagedRow(bs[i]) ensures i in more {
      assert i in pos;
    }
  }

  lemma {:induction false} OneMoreDropped(bs: seq<RulesetBlock>, j: nat, out: seq<RulesetBlock>, pos: seq<nat>)
    requires j < |bs| && Survivors(bs, j, out, pos) && HasManagedRow(bs[j])
    ensures Survivors(bs, j + 1, out, pos)
  {
  }

  lemma {:induction false} StepSurvives(bs: seq<RulesetBlock>, ds: seq<RulesetSpec>, b: Build, j: nat, pos: seq<nat>)
    returns (more: seq<nat>)
    requires NonEmptyBlocks(bs) && j < |bs| && Survivors(bs, j, b.blocks, pos)
    ensures Survivors(bs, j + 1, BlockStep(bs, ds, b, j).blocks, more)
  {
    var r := MatchOf(bs, ds, j);
    assert bs[j].AnyManaged() <==> HasManagedRow(bs[j]);
    more := pos + [j];
    if r.Some? && !Identical(bs[j], ds[r.value]) {
      var d := ds[r.value];
      if d.matchers == [] {
        OneMoreDropped(bs, j, b.blocks, pos);
        more := pos;
      } else {
        OneMoreSurvives(bs, j, b.blocks, pos,
                        RulesetBlock(bs[j].id, NewRows(b.maxRule, d.matchers, d.target, bs[j].id, d.name, true)));
      }
    } else if r.None? && bs[j].AnyManaged() {
      OneMoreDropped(bs, j, b.blocks, pos);
      more := pos;
    } else {
      OneMoreSurvives(bs, j, b.blocks, pos, bs[j]);
    }
  }

  lemma {:induction false} StepOfPass(bs: seq<RulesetBlock>, ds: seq<RulesetSpec>, start: Build, j: nat, pos: seq<nat>)
    returns (more: seq<nat>)
    requires NonEmptyBlocks(bs) && j < |bs| && Survivors(bs, j, BlocksPass(bs, ds, start, j).blocks, pos)
    ensures Survivors(bs, j + 1, BlocksPass(bs, ds, start, j + 1).blocks, more)
  {
    PassIsSteps(bs, ds, start, j);
    more := StepSurvives(bs, ds, BlocksPass(bs, ds, start, j), j, pos);
  }

  lemma {:induction false} NoneYet(bs: seq<RulesetBlock>)
    ensures Survivors(bs, 0, [], [])
  {
  }

  lemma {:induction false} PassSurvives(bs: seq<RulesetBlock>, ds: seq<RulesetSpec>, start: Build, n: nat)
    returns (pos: seq<nat>)
    requires NonEmptyBlocks(bs) && n <= |bs| && start.blocks == []
    ensures Survivors(bs, n, BlocksPass(bs, ds, start, n).blocks, pos)
  {
    pos := [];
    NoneYet(bs);
    for j := 0 to n
      invariant Survivors(bs, j, BlocksPass(bs, ds, start, j).blocks, pos)
    {
      pos := StepOfPass(bs, ds, start, j, pos);
    }
  }

  /** New blocks go behind all that were built, under numbers that were not in use. */
  ghost predicate Appended(before: Build, after: Build) {
    && before.maxRuleset <= after.maxRuleset && |before.blocks| <= |after.blocks|
    && after.blocks[..|before.blocks|] == before.blocks
    && forall p :: |before.blocks| <= p < |after.blocks| ==>
         after.blocks[p].id.Minted? && before.maxRuleset < after.blocks[p].id.n <= after.maxRuleset
  }

  lemma {:induction false} SpecsAppend(bs: seq<RulesetBlock>, ds: seq<RulesetSpec>, start: Build, n: nat)
    requires NonEmptyBlocks(bs) && n <= |ds|
    ensures Appended(start, SpecsPass(bs, ds, start, n))
  {
    if n > 0 {
      SpecsAppend(bs, ds, start, n - 1);
      OneAppended(bs, ds, start, SpecsPass(bs, ds, start, n - 1), n - 1);
    }
  }

  lemma {:induction false} OneAppended(bs: seq<RulesetBlock>, ds: seq<RulesetSpec>, start: Build, b: Build, i: nat)
    requires NonEmptyBlocks(bs) && i < |ds| && Appended(start, b)
    ensures Appended(start, SpecStep(bs, ds, b, i))
  {
    var next := SpecStep(bs, ds, b, i);
    assert |b.blocks| <= |next.blocks| && next.blocks[..|b.blocks|] == b.blocks;
    assert next.blocks[..|start.blocks|] == b.blocks[..|start.blocks|];
    forall p | |start.blocks| <= p < |next.blocks|
      ensures next.blocks[p].id.Minted? && start.maxRuleset < next.blocks[p].id.n <= next.maxRuleset
    {
      if p < |b.blocks| {
        assert next.blocks[p] == b.blocks[p];
      }
    }
  }

  lemma {:induction false} PassKeepsCounter(bs: seq<RulesetBlock>, ds: seq<RulesetSpec>, start: Build, n: nat)
    requires NonEmptyBlocks(bs) && n <= |bs|
    ensures BlocksPass(bs, ds, start, n).maxRuleset == start.maxRuleset
  {
    if n > 0 {
      PassKeepsCounter(bs, ds, start, n - 1);
    }
  }

  /** A sync leaves the surviving rulesets in their order, rewritten in place where they changed, and puts new ones
      behind all of them: the first `|pos|` rulesets are old ones, the others have ids that were not in use. */
  lemma {:induction false} RulesetsKeepTheirPlaces(s: State, b: Bundle, offers: seq<nat>) returns (pos: seq<nat>)
    requires Inv(s) && WellFormedBundle(b) && Sync.SyncSetup(s, b, offers).Ok?
    ensures var old_, now := Runs(s.rules), Runs(Sync.SyncSetup(s, b, offers).value.0.rules);
            && |pos| <= |now| && Survivors(old_, |old_|, now[..|pos|], pos)
            && forall p, j :: |pos| <= p < |now| && 0 <= j < |old_| ==> now[p].id != old_[j].id
  {
    var t := Sync.SyncSetup(s, b, offers).value.0;
    var bs, ds := Runs(s.rules), b.rulesets;
    Sync.SyncShape(s, b, offers);
    Sync.SyncKeepsRules(s, b);
    FlattenRuns(s.rules);
    Sync.RunIdsBounded(s.rules);
    var start := StartBuild(MaxRule(s.rules), MaxRuleset(s.rules));
    var mid := BlocksPass(bs, ds, start, |bs|);
    pos := PassSurvives(bs, ds, start, |bs|);
    PassKeepsCounter(bs, ds, start, |bs|);
    SpecsAppend(bs, ds, mid, |ds|);
    assert Runs(t.rules) == SpecsPass(bs, ds, mid, |ds|).blocks;
  }

  // ---- what the report says of the rulesets ----

  function EntryNames(ds: seq<RulesetSpec>): seq<string> {
    if ds == [] then [] else EntryNames(ds[..|ds| - 1]) + [ds[|ds| - 1].name]
  }

  /** The names of the blocks that have a managed row. */
  ghost function ManagedNames(bs: seq<RulesetBlock>): seq<string>
    requires NonEmptyBlocks(bs)
  {
    if bs == [] then []
    else
      var front, last := bs[..|bs| - 1], bs[|bs| - 1];
      assert forall i :: 0 <= i < |front| ==> front[i] == bs[i];
      var name := if |last.rules[0].name| > 0 then last.rules[0].name else TargetName(last.rules[0].target);
      ManagedNames(front) + (if HasManagedRow(last) then [name] else [])
  }

  /** How often a name is reported for a block that stays or is rewritten, for one that goes, and for a new one. */
  ghost predicate Reported(b: Build, x: string, stayed: int, gone: int, added: int) {
    && multiset(b.kept)[x] + multiset(b.updated)[x] == stayed
    && multiset(b.pruned)[x] == gone
    && multiset(b.added)[x] == added
  }

  lemma {:induction false} OneMoreName(names: seq<string>, name: string, x: string)
    ensures multiset(names + [name])[x] == multiset(names)[x] + (if name == x then 1 else 0)
  {
  }

  lemma {:induction false} EntriesCounted(ds: seq<RulesetSpec>, x: string)
    ensures multiset(EntryNames(ds))[x] == SpecsNamed(ds, x, |ds|)
  {
    if ds != [] {
      var front, last := ds[..|ds| - 1], ds[|ds| - 1];
      EntriesCounted(front, x);
      OneMoreName(EntryNames(front), last.name, x);
      SpecsOfFront(ds, x, |ds| - 1);
    }
  }

  lemma {:induction false} SpecsOfFront(ds: seq<RulesetSpec>, x: string, n: nat)
    requires ds != [] && n < |ds|
    ensures SpecsNamed(ds, x, n) == SpecsNamed(ds[..|ds| - 1], x, n)
  {
    if n > 0 {
      SpecsOfFront(ds, x, n - 1);
    }
  }

  lemma {:induction false} ManagedOfFront(bs: seq<RulesetBlock>, x: string, n: nat)
    requires NonEmptyBlocks(bs) && bs != [] && n < |bs|
    ensures NonEmptyBlocks(bs[..|bs| - 1]) && ManagedNamed(bs, x, n) == ManagedNamed(bs[..|bs| - 1], x, n)
  {
    if n > 0 {
      ManagedOfFront(bs, x, n - 1);
    }
  }

  lemma {:induction false} ManagedCounted(bs: seq<RulesetBlock>, x: string)
    requires NonEmptyBlocks(bs)
    ensures multiset(ManagedNames(bs))[x] == ManagedNamed(bs, x, |bs|)
  {
    if bs != [] {
      var front, last := bs[..|bs| - 1], bs[|bs| - 1];
      ManagedOfFront(bs, x, |bs| - 1);
      ManagedCounted(front, x);
      assert HasManagedRow(last) <==> last.AnyManaged();
      OneMoreName(ManagedNames(front), last.Name(), x);
    }
  }

  lemma {:induction false} BlockReported(bs: seq<RulesetBlock>, ds: seq<RulesetSpec>, b: Build, j: nat, x: string)
    requires NonEmptyBlocks(bs) && j < |bs|
    requires var m, k := ManagedNamed(bs, x, j), SpecsNamed(ds, x, |ds|); Reported(b, x, Min(m, k), m - Min(m, k), 0)
    ensures var m, k := ManagedNamed(bs, x, j + 1), SpecsNamed(ds, x, |ds|);
            Reported(BlockStep(bs, ds, b, j), x, Min(m, k), m - Min(m, k), 0)
  {
    match MatchOf(bs, ds, j)
    case Some(i) =>
      OneMoreName(b.kept, ds[i].name, x);
      OneMoreName(b.updated, ds[i].name, x);
    case None =>
      OneMoreName(b.pruned, bs[j].Name(), x);
  }

  lemma {:induction false} BlocksReported(bs: seq<RulesetBlock>, ds: seq<RulesetSpec>, start: Build, n: nat, x: string)
    requires NonEmptyBlocks(bs) && n <= |bs| && Reported(start, x, 0, 0, 0)
    ensures var m, k := ManagedNamed(bs, x, n), SpecsNamed(ds, x, |ds|);
            Reported(BlocksPass(bs, ds, start, n), x, Min(m, k), m - Min(m, k), 0)
  {
    if n > 0 {
      BlocksReported(bs, ds, start, n - 1, x);
      BlockReported(bs, ds, BlocksPass(bs, ds, start, n - 1), n - 1, x);
    }
  }

  /** Entries beyond those matched with a block are reported as added. */
  function Beyond(k: nat, m: nat): nat {
    if k <= m then 0 else k - m
  }

  lemma {:induction false} SpecsReported(bs: seq<RulesetBlock>, ds: seq<RulesetSpec>, start: Build, n: nat, x: string,
                                         stayed: int, gone: int)
    requires NonEmptyBlocks(bs) && n <= |ds| && Reported(start, x, stayed, gone, 0)
    ensures Reported(SpecsPass(bs, ds, start, n), x, stayed, gone,
                     Beyond(SpecsNamed(ds, x, n), ManagedNamed(bs, x, |bs|)))
  {
    if n > 0 {
      SpecsReported(bs, ds, start, n - 1, x, stayed, gone);
      OneMoreName(SpecsPass(bs, ds, start, n - 1).added, ds[n - 1].name, x);
    }
  }

  /** Every entry of the bundle is reported once, as kept, updated or added, and every managed ruleset there was is
      reported once, as kept, updated or pruned. */
  ghost predicate AllReported(s: State, b: Bundle, told: Sync.SyncReport)
    requires NonEmptyBlocks(Runs(s.rules))
  {
    && multiset(told.rulesetsUnchanged) + multiset(told.rulesetsUpdated) + multiset(told.rulesetsAdded)
       == multiset(EntryNames(b.rulesets))
    && multiset(told.rulesetsUnchanged) + multiset(told.rulesetsUpdated) + multiset(told.rulesetsPruned)
       == multiset(ManagedNames(Runs(s.rules)))
  }

  lemma {:induction false} ReportedOnce(bs: seq<RulesetBlock>, ds: seq<RulesetSpec>, maxRule: nat, maxRuleset: nat,
                                        x: string)
    requires NonEmptyBlocks(bs)
    ensures var m, k := ManagedNamed(bs, x, |bs|), SpecsNamed(ds, x, |ds|);
            Reported(Converge(bs, ds, maxRule, maxRuleset), x, Min(m, k), m - Min(m, k), Beyond(k, m))
  {
    var start := StartBuild(maxRule, maxRuleset);
    BlocksReported(bs, ds, start, |bs|, x);
    var m, k := ManagedNamed(bs, x, |bs|), SpecsNamed(ds, x, |ds|);
    SpecsReported(bs, ds, BlocksPass(bs, ds, start, |bs|), |ds|, x, Min(m, k), m - Min(m, k));
  }

  lemma {:induction false} ReportIsBuilds(s: State, b: Bundle, offers: seq<nat>)
    requires Sync.SyncSetup(s, b, offers).Ok?
    ensures Grouped(s.rules)
    ensures var told, build := Sync.SyncSetup(s, b, offers).value.1, Sync.NewRules(s, b);
            && told.rulesetsUnchanged == build.kept && told.rulesetsUpdated == build.updated
            && told.rulesetsPruned == build.pruned && told.rulesetsAdded == build.added
  {
  }

  lemma {:induction false} CountsAddUp(bs: seq<RulesetBlock>, ds: seq<RulesetSpec>, b: Build, x: string)
    requires NonEmptyBlocks(bs)
    requires var m, k := ManagedNamed(bs, x, |bs|), SpecsNamed(ds, x, |ds|);
             Reported(b, x, Min(m, k), m - Min(m, k), Beyond(k, m))
    ensures (multiset(b.kept) + multiset(b.updated) + multiset(b.added))[x] == multiset(EntryNames(ds))[x]
    ensures (multiset(b.kept) + multiset(b.updated) + multiset(b.pruned))[x] == multiset(ManagedNames(bs))[x]
  {
    EntriesCounted(ds, x);
    ManagedCounted(bs, x);
  }

  lemma {:induction false} EveryRulesetIsReported(s: State, b: Bundle, offers: seq<nat>)
    requires Inv(s) && Sync.SyncSetup(s, b, offers).Ok?
    ensures NonEmptyBlocks(Runs(s.rules)) && AllReported(s, b, Sync.SyncSetup(s, b, offers).value.1)
  {
    FlattenRuns(s.rules);
    ReportIsBuilds(s, b, offers);
    var bs, ds, build := Runs(s.rules), b.rulesets, Sync.NewRules(s, b);
    forall x: string
      ensures (multiset(build.kept) + multiset(build.updated) + multiset(build.added))[x] == multiset(EntryNames(ds))[x]
      ensures (multiset(build.kept) + multiset(build.updated) + multiset(build.pruned))[x]
              == multiset(ManagedNames(bs))[x]
    {
      ReportedOnce(bs, ds, MaxRule(s.rules), MaxRuleset(s.rules), x);
      CountsAddUp(bs, ds, build, x);
    }
  }
}
