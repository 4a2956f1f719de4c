/** The loops inside `sync_setup`: matching, rewriting and appending rulesets, pruning channels and providers. */
module SyncLoops {
  import opened Common
  import opened Routes
  import opened State
  import opened RulesetOps
  import opened Setup
  import opened SyncRules
  import opened StoreLoops
  import Sync = SyncSetup

  /** `managed_rows`: rows for one entry, numbered on from the counter. */
  method ManagedRows(maxRule: nat, spec: RulesetSpec, rs: Id) returns (rows: seq<Rule>, top: nat)
    ensures rows == NewRows(maxRule, spec.matchers, spec.target, rs, spec.name, true)
    ensures top == maxRule + |spec.matchers|
  {
    rows, top := [], maxRule;
    for i := 0 to |spec.matchers|
      invariant |rows| == i && top == maxRule + i
      invariant forall k :: 0 <= k < i ==>
                  rows[k] == Rule(Minted(maxRule + 1 + k), spec.matchers[k], spec.target, rs, spec.name, true)
    {
      top := top + 1;
      rows := rows + [Rule(Minted(top), spec.matchers[i], spec.target, rs, spec.name, true)];
    }
  }

  /** The running state of the two ruleset loops. */
  datatype Pass = Pass(rules: seq<Rule>, maxRule: nat, maxRuleset: nat, pending: seq<Target>,
                       kept: seq<string>, updated: seq<string>, pruned: seq<string>, added: seq<string>)

  /** The flat rows written so far are the blocks the specification has, laid end to end. */
  ghost predicate Reflects(p: Pass, b: Build) {
    && p.rules == Flatten(b.blocks) && p.maxRule == b.maxRule && p.maxRuleset == b.maxRuleset && p.pending == b.pending
    && p.kept == b.kept && p.updated == b.updated && p.pruned == b.pruned && p.added == b.added
  }

  lemma {:induction false} FlattenWithBlock(bs: seq<RulesetBlock>, b: RulesetBlock)
    ensures Flatten(WithBlock(bs, b)) == Flatten(bs) + b.rules
  {
    FlattenAppend(bs, b);
  }

  method AppendSpec(p: Pass, spec: RulesetSpec, rs: Id, ghost b: Build) returns (out: Pass)
    requires Reflects(p, b)
    ensures Reflects(out, WriteSpec(b, spec, rs))
  {
    var rows, top := ManagedRows(p.maxRule, spec, rs);
    FlattenWithBlock(b.blocks, RulesetBlock(rs, rows));
    out := p.(rules := p.rules + rows, maxRule := top, pending := p.pending + [spec.target]);
  }

  /** One existing block. */
  method PlaceBlock(bs: seq<RulesetBlock>, ds: seq<RulesetSpec>, matched: map<Id, nat>, j: nat, p: Pass, ghost b: Build)
    returns (out: Pass)
    requires NonEmptyBlocks(bs) && j < |bs| && Reflects(p, b)
    requires MatchOf(bs, ds, j) == if bs[j].id in matched then Some(matched[bs[j].id]) else None
    ensures Reflects(out, BlockStep(bs, ds, b, j))
  {
    FlattenAppend(b.blocks, bs[j]);
    if bs[j].id in matched {
      var spec := ds[matched[bs[j].id]];
      if Identical(bs[j], spec) {
        out := p.(rules := p.rules + bs[j].rules, kept := p.kept + [spec.name]);
      } else {
        out := AppendSpec(p, spec, bs[j].id, b);
        out := out.(updated := out.updated + [spec.name]);
      }
    } else if bs[j].AnyManaged() {
      out := p.(pruned := p.pruned + [bs[j].Name()]);
    } else {
      out := p.(rules := p.rules + bs[j].rules);
    }
  }

  method PlaceBlocks(bs: seq<RulesetBlock>, ds: seq<RulesetSpec>, matched: map<Id, nat>, maxRule: nat, maxRuleset: nat)
    returns (p: Pass)
    requires NonEmptyBlocks(bs)
    requires forall j :: 0 <= j < |bs| ==>
               MatchOf(bs, ds, j) == if bs[j].id in matched then Some(matched[bs[j].id]) else None
    ensures Reflects(p, BlocksPass(bs, ds, StartBuild(maxRule, maxRuleset), |bs|))
  {
    p := Pass([], maxRule, maxRuleset, [], [], [], [], []);
    ghost var start := StartBuild(maxRule, maxRuleset);
    for j := 0 to |bs|
      invariant Reflects(p, BlocksPass(bs, ds, start, j))
    {
      p := PlaceBlock(bs, ds, matched, j, p, BlocksPass(bs, ds, start, j));
    }
  }

  method PlaceNewSpecs(bs: seq<RulesetBlock>, ds: seq<RulesetSpec>, claimed: set<nat>, before: Pass, ghost start: Build)
    returns (p: Pass)
    requires NonEmptyBlocks(bs) && Reflects(before, start)
    requires forall i :: i in claimed <==> 0 <= i < |ds| && Claimed(bs, ds, i)
    ensures Reflects(p, SpecsPass(bs, ds, start, |ds|))
  {
    p := before;
    for i := 0 to |ds|
      invariant Reflects(p, SpecsPass(bs, ds, start, i))
    {
      ghost var b := SpecsPass(bs, ds, start, i);
      if i !in claimed {
        p := p.(maxRuleset := p.maxRuleset + 1);
        p := AppendSpec(p, ds[i], Minted(p.maxRuleset), b.(maxRuleset := b.maxRuleset + 1));
        p := p.(added := p.added + [ds[i].name]);
      }
    }
  }

  lemma {:induction false} BlocksReady(rules: seq<Rule>)
    requires Grouped(rules)
    ensures NonEmptyBlocks(Runs(rules)) && DistinctBlockIds(Runs(rules))
  {
    FlattenRuns(rules);
    RunsWellBlocked(rules);
  }

  method ConvergeBlocks(bs: seq<RulesetBlock>, ds: seq<RulesetSpec>, maxRule: nat, maxRuleset: nat) returns (p: Pass)
    requires NonEmptyBlocks(bs) && DistinctBlockIds(bs)
    ensures Reflects(p, Converge(bs, ds, maxRule, maxRuleset))
  {
    var matched, claimed := MatchBlocks(bs, ds);
    p := PlaceBlocks(bs, ds, matched, maxRule, maxRuleset);
    p := PlaceNewSpecs(bs, ds, claimed, p, BlocksPass(bs, ds, StartBuild(maxRule, maxRuleset), |bs|));
  }

  /** The whole ruleset part of a sync: blocks in, converged rows and report out. */
  method ConvergeRules(rules: seq<Rule>, ds: seq<RulesetSpec>, maxRule: nat, maxRuleset: nat)
      returns (r: Result<Pass, string>)
    ensures r.Ok? <==> Grouped(rules)
    ensures r.Ok? ==> NonEmptyBlocks(Runs(rules)) && Reflects(r.value, Converge(Runs(rules), ds, maxRule, maxRuleset))
  {
    var blocks := RulesetBlocks(rules);
    if blocks.Err? {
      return Err(blocks.error);
    }
    BlocksReady(rules);
    var p := ConvergeBlocks(blocks.value, ds, maxRule, maxRuleset);
    r := Ok(p);
  }

  lemma {:induction false} OneMoreUnreferenced(refs: set<Ref>, a: Ref, rules: seq<Rule>)
    ensures Sync.Unreferenced(refs + {a}, rules)
            == Sync.Unreferenced(refs, rules) + (if References(rules, {a}) then {} else {a})
  {
  }

  /** One more candidate dropped, or kept. */
  lemma {:induction false} DropOrKeep(before: map<Ref, Channel>, done: set<Ref>, pruned: set<Ref>, a: Ref)
    requires pruned <= done && a !in done
    ensures (before - pruned) - {a} == before - (pruned + {a})
    ensures (done + {a}) - (pruned + {a}) == done - pruned && (done + {a}) - pruned == (done - pruned) + {a}
  {
  }

  lemma {:induction false} KeptByOneMore(refs: set<Ref>, a: Ref, rules: seq<Rule>)
    ensures Sync.KeptBy(refs + {a}, rules) == Sync.KeptBy(refs, rules)[a := Sync.NamesReferencing(rules, a)]
  {
  }

  /** The distinct names of the rules that keep a channel. */
  method CollectNames(rules: seq<Rule>, a: Ref) returns (names: seq<string>)
    ensures names == Sync.NamesReferencing(rules, a)
  {
    names := [];
    for i := 0 to |rules|
      invariant names == Sync.NamesReferencing(rules[..i], a)
    {
      assert rules[..i + 1][..i] == rules[..i];
      if rules[i].target == Via(a) {
        var name := Sync.RowName(rules[i]);
        if name !in names {
          names := names + [name];
        }
      }
    }
    assert rules[..|rules|] == rules;
  }

  /** Managed channels outside the bundle go unless a surviving rule references them. */
  method PruneChannels(before: map<Ref, Channel>, candidates: set<Ref>, rules: seq<Rule>)
    returns (channels: map<Ref, Channel>, pruned: set<Ref>, kept: map<Ref, seq<string>>)
    requires candidates <= before.Keys
    ensures pruned == Sync.Unreferenced(candidates, rules)
    ensures kept == Sync.KeptBy(candidates - pruned, rules)
    ensures channels == before - pruned
  {
    channels, pruned, kept := before, {}, map[];
    var done: set<Ref> := {};
    while done != candidates
      invariant done <= candidates && pruned == Sync.Unreferenced(done, rules)
      invariant kept == Sync.KeptBy(done - pruned, rules)
      invariant channels == before - pruned
      decreases |candidates - done|
    {
      var a :| a in candidates - done;
      OneMoreUnreferenced(done, a, rules);
      OneLess(candidates, done, a);
      DropOrKeep(before, done, pruned, a);
      if References(rules, {a}) {
        KeptByOneMore(done - pruned, a, rules);
        var names := CollectNames(rules, a);
        kept := kept[a := names];
      } else {
        channels, pruned := channels - {a}, pruned + {a};
      }
      done := done + {a};
    }
  }
}
