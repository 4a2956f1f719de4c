/** Rule rows under every rule operation: contiguous rulesets, unique ids and targets that exist and are enabled are
    kept together, row list by row list, whatever the rest of the state is. */
module RulesPreserved {
  import opened Common
  import opened Routes
  import opened State
  import opened RulesetOps
  import opened RulesetMoves
  import opened RulesetOrder
  import opened Setup
  import opened Operations
  import Sync = SyncSetup

  /** The rows may be replaced by any grouped rows with unique ids and good targets. */
  ghost predicate GoodRules(channels: map<Ref, Channel>, rules: seq<Rule>) {
    Grouped(rules) && UniqueIds(rules) && RestrictOnly(channels, rules)
  }

  lemma {:induction false} CreateKeeps(channels: map<Ref, Channel>, rules: seq<Rule>, name: string, target: Target,
                                       matchers: seq<Matcher>)
    requires GoodRules(channels, rules) && TargetOk(channels, target)
    ensures GoodRules(channels, CreateRows(rules, name, target, matchers))
  {
    CreateUnique(rules, name, target, matchers);
    if matchers == [] {
      assert CreateRows(rules, name, target, matchers) == rules;
    } else {
      CreateAppendsBlock(rules, name, target, matchers);
    }
  }

  lemma {:induction false} BlockIndex(rules: seq<Rule>, rs: Id) returns (k: nat)
    requires Grouped(rules) && HasBlock(Runs(rules), rs)
    ensures k < |Runs(rules)| && Runs(rules)[k] == BlockById(Runs(rules), rs) && Runs(rules)[k].id == rs
    ensures Runs(rules)[k].rules != [] && Runs(rules)[k].rules[0] in rules
  {
    FlattenRuns(rules);
    k :| 0 <= k < |Runs(rules)| && Runs(rules)[k] == BlockById(Runs(rules), rs);
    Sync.BlockRowsAreRows(Runs(rules), k, Runs(rules)[k].rules[0]);
  }

  lemma {:induction false} RowTargetOk(channels: map<Ref, Channel>, rules: seq<Rule>, r: Rule)
    requires RestrictOnly(channels, rules) && r in rules
    ensures TargetOk(channels, r.target)
  {
    var i :| 0 <= i < |rules| && rules[i] == r;
  }

  lemma {:induction false} InsertTargets(channels: map<Ref, Channel>, rules: seq<Rule>, end: nat, rows: seq<Rule>,
                                         t: Target)
    requires RestrictOnly(channels, rules) && end <= |rules| && TargetOk(channels, t)
    requires forall i :: 0 <= i < |rows| ==> rows[i].target == t
    ensures RestrictOnly(channels, rules[..end] + rows + rules[end..])
  {
  }

  lemma {:induction false} AddKeeps(channels: map<Ref, Channel>, rules: seq<Rule>, rs: Id, matchers: seq<Matcher>)
    requires GoodRules(channels, rules) && HasBlock(Runs(rules), rs) && BlockById(Runs(rules), rs).rules != []
    ensures var b := BlockById(Runs(rules), rs); GoodRules(channels, AddRows(rules, rs, b.Target(), b.Name(), matchers))
  {
    var k := BlockIndex(rules, rs);
    var b := Runs(rules)[k];
    AddExtendsBlock(rules, k, matchers);
    AddUnique(rules, rs, b.Target(), b.Name(), matchers);
    RowTargetOk(channels, rules, b.rules[0]);
    InsertTargets(channels, rules, EndOf(rules, rs),
                  NewRows(MaxRule(rules), matchers, b.Target(), rs, b.Name(), false), b.Target());
  }

  lemma {:induction false} FilterKeeps(channels: map<Ref, Channel>, p: Rule -> bool, rules: seq<Rule>)
    requires GoodRules(channels, rules)
    ensures GoodRules(channels, Filter(p, rules))
  {
    FilterGrouped(p, rules);
    FilterUnique(p, rules);
    forall i | 0 <= i < |Filter(p, rules)| ensures TargetOk(channels, Filter(p, rules)[i].target) {
      FilterMembers(p, rules, Filter(p, rules)[i]);
      RowTargetOk(channels, rules, Filter(p, rules)[i]);
    }
  }

  lemma {:induction false} UpdateKeeps(channels: map<Ref, Channel>, rules: seq<Rule>, rs: Id, name: string,
                                       target: Target, matchers: seq<Matcher>)
    requires GoodRules(channels, rules) && HasRuleset(rules, rs) && matchers != [] && TargetOk(channels, target)
    ensures GoodRules(channels, UpdateRows(rules, rs, name, target, matchers))
  {
    var k := BlockOf(rules, rs);
    UpdateKeepsPosition(rules, k, name, target, matchers);
    UpdateUnique(rules, rs, name, target, matchers);
    FilterKeeps(channels, Outside(rs), rules);
    var kept := Without(rules, rs);
    var at := if FirstOf(rules, rs) < |kept| then FirstOf(rules, rs) else |kept|;
    InsertTargets(channels, kept, at, NewRows(MaxRule(kept), matchers, target, rs, name, false), target);
  }

  lemma {:induction false} MoveKeeps(channels: map<Ref, Channel>, rules: seq<Rule>, wanted: seq<Id>, rs: Id)
    requires GoodRules(channels, rules) && HasBlock(Runs(rules), rs) && BlockById(Runs(rules), rs).rules != []
    requires Movable(rules, wanted, rs)
    ensures var b := BlockById(Runs(rules), rs); GoodRules(channels, MoveRows(rules, wanted, rs, b.Name(), b.Target()))
  {
    var k := BlockIndex(rules, rs);
    var b := Runs(rules)[k];
    MoveKeepsGrouping(rules, wanted, k);
    MoveUnique(rules, wanted, rs, b.Name(), b.Target());
    RowTargetOk(channels, rules, b.rules[0]);
    MovedTargets(channels, rules, wanted, rs, b.Name(), b.Target());
  }

  /** The destination still has rows after a move. */
  lemma {:induction false} MoveLeavesDestination(channels: map<Ref, Channel>, rules: seq<Rule>, wanted: seq<Id>, rs: Id)
    requires GoodRules(channels, rules) && HasBlock(Runs(rules), rs) && BlockById(Runs(rules), rs).rules != []
    requires Movable(rules, wanted, rs)
    ensures var b := BlockById(Runs(rules), rs); HasRuleset(MoveRows(rules, wanted, rs, b.Name(), b.Target()), rs)
  {
    var k := BlockIndex(rules, rs);
    var j := DestinationSurvives(rules, wanted, k);
    var kept := WithoutIds(rules, SetOf(wanted));
    RunsWellBlocked(kept);
    FlattenRuns(kept);
    Sync.BlockRowsAreRows(Runs(kept), j, Runs(kept)[j].rules[0]);
    assert Runs(kept)[j].Uniform();
    assert HasRuleset(kept, rs);
    InsertKeepsRuleset(kept, EndOf(kept, rs),
                       MovedRows(rules, wanted, rs, Runs(rules)[k].Name(), Runs(rules)[k].Target()), rs);
  }

  lemma {:induction false} InsertKeepsRuleset(rules: seq<Rule>, end: nat, rows: seq<Rule>, rs: Id)
    requires HasRuleset(rules, rs) && end <= |rules|
    ensures HasRuleset(rules[..end] + rows + rules[end..], rs)
  {
    HasRulesetConcat(rules[..end], rules[end..], rs);
    assert rules[..end] + rules[end..] == rules;
    HasRulesetConcat(rules[..end] + rows, rules[end..], rs);
    HasRulesetConcat(rules[..end], rows, rs);
  }

  lemma {:induction false} MovedTargets(channels: map<Ref, Channel>, rules: seq<Rule>, wanted: seq<Id>, rs: Id,
                                        name: string, target: Target)
    requires GoodRules(channels, rules) && Movable(rules, wanted, rs) && TargetOk(channels, target)
    ensures RestrictOnly(channels, MoveRows(rules, wanted, rs, name, target))
  {
    var kept := WithoutIds(rules, SetOf(wanted));
    var rows := MovedRows(rules, wanted, rs, name, target);
    FilterKeeps(channels, NotNamed(SetOf(wanted)), rules);
    InsertTargets(channels, kept, EndOf(kept, rs), rows, target);
  }

  lemma {:induction false} SameRowsKeepTargets(channels: map<Ref, Channel>, rules: seq<Rule>, out: seq<Rule>)
    requires RestrictOnly(channels, rules) && multiset(out) == multiset(rules)
    ensures RestrictOnly(channels, out)
  {
    forall i | 0 <= i < |out| ensures TargetOk(channels, out[i].target) {
      assert out[i] in multiset(rules);
      RowTargetOk(channels, rules, out[i]);
    }
  }

  lemma {:induction false} AppendKeeps(channels: map<Ref, Channel>, rules: seq<Rule>, specs: seq<RulesetSpec>)
    requires GoodRules(channels, rules) && SpecTargetsOk(channels, specs)
    ensures GoodRules(channels, AppendRulesets(rules, specs))
  {
    if specs != [] {
      var front, d := specs[..|specs| - 1], specs[|specs| - 1];
      AppendKeeps(channels, rules, front);
      CreateKeeps(channels, AppendRulesets(rules, front), d.name, d.target, d.matchers);
    }
  }

  /** The ids a restore has minted so far: rows `r1` up, rulesets `rs1` up. */
  ghost predicate FreshlyNumbered(rules: seq<Rule>, n: nat) {
    && (forall i :: 0 <= i < |rules| ==> rules[i].id == Minted(i + 1))
    && (forall i :: 0 <= i < |rules| ==> rules[i].ruleset.Minted? && rules[i].ruleset.n <= n)
  }

  /** One more block of a restore, numbered on. */
  lemma {:induction false} NumberedBlock(channels: map<Ref, Channel>, before: seq<Rule>, n: nat, d: RulesetSpec)
    requires GoodRules(channels, before) && FreshlyNumbered(before, n) && TargetOk(channels, d.target)
    ensures var out := before + NewRows(|before|, d.matchers, d.target, Minted(n + 1), d.name, false);
            GoodRules(channels, out) && FreshlyNumbered(out, n + 1)
  {
    var rows := NewRows(|before|, d.matchers, d.target, Minted(n + 1), d.name, false);
    forall i | 0 <= i < |before| ensures before[i].ruleset != Minted(n + 1) {}
    AppendRun(before, rows, Minted(n + 1), d.target);
    NumberedOn(before, rows, n);
    NumberedUnique(before + rows, n + 1);
    InsertTargets(channels, before, |before|, rows, d.target);
    InsertAtEnd(before, rows);
  }

  lemma {:induction false} InsertAtEnd(before: seq<Rule>, rows: seq<Rule>)
    ensures before[..|before|] + rows + before[|before|..] == before + rows
  {
  }

  lemma {:induction false} NumberedOn(before: seq<Rule>, rows: seq<Rule>, n: nat)
    requires FreshlyNumbered(before, n)
    requires forall i :: 0 <= i < |rows| ==> rows[i].id == Minted(|before| + 1 + i) && rows[i].ruleset == Minted(n + 1)
    ensures FreshlyNumbered(before + rows, n + 1)
  {
  }

  lemma {:induction false} NumberedUnique(rules: seq<Rule>, n: nat)
    requires FreshlyNumbered(rules, n)
    ensures UniqueIds(rules)
  {
  }

  lemma {:induction false} RestoredKeeps(channels: map<Ref, Channel>, specs: seq<RulesetSpec>)
    requires SpecTargetsOk(channels, specs)
    ensures GoodRules(channels, RestoredRules(specs)) && FreshlyNumbered(RestoredRules(specs), |specs|)
  {
    if specs != [] {
      var front, d := specs[..|specs| - 1], specs[|specs| - 1];
      RestoredKeeps(channels, front);
      NumberedBlock(channels, RestoredRules(front), |front|, d);
    }
  }

  lemma {:induction false} RenameKeeps(channels: map<Ref, Channel>, rules: seq<Rule>, rs: Id, name: string)
    requires GoodRules(channels, rules) && HasRuleset(rules, rs)
    ensures GoodRules(channels, RenameRows(rules, rs, name))
  {
    RenameKeepsGrouping(rules, rs, name);
    RewriteTargets(channels, rules, RenameRows(rules, rs, name));
  }

  lemma {:induction false} RetargetKeeps(channels: map<Ref, Channel>, rules: seq<Rule>, rs: Id, target: Target)
    requires GoodRules(channels, rules) && HasRuleset(rules, rs) && TargetOk(channels, target)
    ensures GoodRules(channels, RetargetRows(rules, rs, target))
  {
    RetargetKeepsGrouping(rules, rs, target);
    RewriteTargets(channels, rules, RetargetRows(rules, rs, target));
  }

  lemma {:induction false} RewriteTargets(channels: map<Ref, Channel>, rules: seq<Rule>, out: seq<Rule>)
    requires RestrictOnly(channels, rules) && |out| == |rules|
    requires forall i :: 0 <= i < |rules| ==> out[i].target == rules[i].target || TargetOk(channels, out[i].target)
    ensures RestrictOnly(channels, out)
  {
  }
}
