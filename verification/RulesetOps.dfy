/** What each ruleset operation does to the ordered rows, and what it keeps: creating, extending, updating and removing
    rulesets, told block by block. */
module RulesetOps {
  import opened Common
  import opened Routes
  import opened State

  // ---- building blocks of the operations ----

  /** Fresh rows, numbered upward from `base + 1`. */
  function NewRows(base: nat, matchers: seq<Matcher>, target: Target, rs: Id, name: string,
                   managed: bool): (rows: seq<Rule>)
    ensures |rows| == |matchers|
    ensures forall i :: 0 <= i < |rows| ==>
              rows[i] == Rule(Minted(base + 1 + i), matchers[i], target, rs, name, managed)
    decreases |matchers|
  {
    if matchers == [] then []
    else [Rule(Minted(base + 1), matchers[0], target, rs, name, managed)]
         + NewRows(base + 1, matchers[1..], target, rs, name, managed)
  }

  function Filter(p: Rule -> bool, rules: seq<Rule>): seq<Rule> {
    if rules == [] then []
    else Filter(p, rules[..|rules| - 1]) + (if p(rules[|rules| - 1]) then [rules[|rules| - 1]] else [])
  }

  function Outside(rs: Id): Rule -> bool {
    (r: Rule) => r.ruleset != rs
  }

  function NotNamed(ids: set<Id>): Rule -> bool {
    (r: Rule) => r.id !in ids
  }

  function Without(rules: seq<Rule>, rs: Id): seq<Rule> {
    Filter(Outside(rs), rules)
  }

  function WithoutIds(rules: seq<Rule>, ids: set<Id>): seq<Rule> {
    Filter(NotNamed(ids), rules)
  }

  /** Index just past the last row of a ruleset; 0 when it has none. */
  function EndOf(rules: seq<Rule>, rs: Id): (end: nat)
    ensures end <= |rules|
  {
    if rules == [] then 0
    else if rules[|rules| - 1].ruleset == rs then |rules|
    else EndOf(rules[..|rules| - 1], rs)
  }

  /** Index of the first row of a ruleset; the length when it has none. */
  function FirstOf(rules: seq<Rule>, rs: Id): (i: nat)
    ensures i <= |rules|
  {
    if rules == [] then 0
    else if rules[0].ruleset == rs then 0
    else 1 + FirstOf(rules[1..], rs)
  }

  // ---- filtering ----

  lemma {:induction false} FilterStep(p: Rule -> bool, rules: seq<Rule>, r: Rule)
    ensures Filter(p, rules + [r]) == Filter(p, rules) + (if p(r) then [r] else [])
  {
    assert (rules + [r])[..|rules|] == rules;
  }

  lemma {:induction false} FilterMembers(p: Rule -> bool, rules: seq<Rule>, r: Rule)
    ensures r in Filter(p, rules) <==> r in rules && p(r)
  {
    if rules != [] {
      FilterMembers(p, rules[..|rules| - 1], r);
      assert rules == rules[..|rules| - 1] + [rules[|rules| - 1]];
    }
  }

  lemma {:induction false} FilterConcat(p: Rule -> bool, a: seq<Rule>, b: seq<Rule>)
    ensures Filter(p, a + b) == Filter(p, a) + Filter(p, b)
  {
    if b == [] {
      assert a + b == a;
    } else {
      var front, last := b[..|b| - 1], b[|b| - 1];
      FilterConcat(p, a, front);
      assert a + b == (a + front) + [last];
      FilterStep(p, a + front, last);
    }
  }

  lemma {:induction false} FilterAll(p: Rule -> bool, rules: seq<Rule>)
    requires forall i :: 0 <= i < |rules| ==> p(rules[i])
    ensures Filter(p, rules) == rules
  {
    if rules != [] {
      FilterAll(p, rules[..|rules| - 1]);
      assert rules == rules[..|rules| - 1] + [rules[|rules| - 1]];
    }
  }

  lemma {:induction false} FilterNone(p: Rule -> bool, rules: seq<Rule>)
    requires forall i :: 0 <= i < |rules| ==> !p(rules[i])
    ensures Filter(p, rules) == []
  {
    if rules != [] {
      FilterNone(p, rules[..|rules| - 1]);
    }
  }

  lemma {:induction false} FilterHasRuleset(p: Rule -> bool, rules: seq<Rule>, rs: Id)
    ensures HasRuleset(Filter(p, rules), rs) ==> HasRuleset(rules, rs)
  {
    if i :| 0 <= i < |Filter(p, rules)| && Filter(p, rules)[i].ruleset == rs {
      var r := Filter(p, rules)[i];
      FilterMembers(p, rules, r);
      var j :| 0 <= j < |rules| && rules[j] == r;
    }
  }

  /** Dropping rows never stops a row from fitting. */
  lemma {:induction false} FilterFits(p: Rule -> bool, rules: seq<Rule>, r: Rule)
    requires Grouped(rules) && Fits(rules, r)
    ensures Fits(Filter(p, rules), r)
  {
    if rules != [] {
      var front, last := rules[..|rules| - 1], rules[|rules| - 1];
      FilterHasRuleset(p, rules, r.ruleset);
      if Continues(rules, r.ruleset, r.target) {
        assert Fits(front, r) by {
          assert Fits(front, last);
        }
        FilterFits(p, front, r);
      }
    }
  }

  lemma {:induction false} FilterGrouped(p: Rule -> bool, rules: seq<Rule>)
    requires Grouped(rules)
    ensures Grouped(Filter(p, rules))
  {
    if rules != [] {
      var front, last := rules[..|rules| - 1], rules[|rules| - 1];
      FilterGrouped(p, front);
      if p(last) {
        FilterFits(p, front, last);
        GroupedAppend(Filter(p, front), last);
      } else {
        assert Filter(p, rules) == Filter(p, front);
      }
    }
  }

  // ---- unique ids ----

  predicate HasId(rules: seq<Rule>, id: Id) {
    exists i :: 0 <= i < |rules| && rules[i].id == id
  }

  lemma {:induction false} UniqueConcat(a: seq<Rule>, b: seq<Rule>)
    requires UniqueIds(a) && UniqueIds(b)
    requires forall i :: 0 <= i < |b| ==> !HasId(a, b[i].id)
    ensures UniqueIds(a + b)
  {
    forall i, j | 0 <= i < j < |a + b| ensures (a + b)[i].id != (a + b)[j].id {
      if i < |a| && |a| <= j {
        assert !HasId(a, b[j - |a|].id);
      }
    }
  }

  lemma {:induction false} FilterUnique(p: Rule -> bool, rules: seq<Rule>)
    requires UniqueIds(rules)
    ensures UniqueIds(Filter(p, rules))
  {
    if rules != [] {
      var front, last := rules[..|rules| - 1], rules[|rules| - 1];
      FilterUnique(p, front);
      forall i | 0 <= i < |Filter(p, front)| ensures Filter(p, front)[i].id != last.id {
        FilterMembers(p, front, Filter(p, front)[i]);
        var k :| 0 <= k < |front| && front[k] == Filter(p, front)[i];
        assert rules[k].id != rules[|rules| - 1].id;
      }
    }
  }

  lemma {:induction false} NewRowsUnique(rules: seq<Rule>, base: nat, matchers: seq<Matcher>, target: Target, rs: Id,
                                         name: string, managed: bool)
    requires UniqueIds(rules) && MaxRule(rules) <= base
    ensures var rows := NewRows(base, matchers, target, rs, name, managed);
            UniqueIds(rows) && forall i :: 0 <= i < |rows| ==> !HasId(rules, rows[i].id)
  {
    var rows := NewRows(base, matchers, target, rs, name, managed);
    forall i | 0 <= i < |rows| ensures !HasId(rules, rows[i].id) {
      forall j | 0 <= j < |rules| ensures rules[j].id != rows[i].id {
        assert rules[j] in rules;
      }
    }
  }

  /** Inserting rows anywhere among rows whose ids they do not use. */
  lemma {:induction false} UniqueInsert(a: seq<Rule>, rows: seq<Rule>, b: seq<Rule>)
    requires UniqueIds(a + b) && UniqueIds(rows)
    requires forall i :: 0 <= i < |rows| ==> !HasId(a + b, rows[i].id)
    ensures UniqueIds(a + rows + b)
  {
    var all := a + rows + b;
    forall i, j | 0 <= i < j < |all| ensures all[i].id != all[j].id {
      var m, n := |a|, |a| + |rows|;
      assert forall k :: 0 <= k < m ==> all[k] == (a + b)[k];
      assert forall k :: n <= k < |all| ==> all[k] == (a + b)[k - |rows|];
      assert forall k :: m <= k < n ==> all[k] == rows[k - m];
      if m <= i < n && !(m <= j < n) {
        assert !HasId(a + b, rows[i - m].id);
      } else if m <= j < n && !(m <= i < n) {
        assert !HasId(a + b, rows[j - m].id);
      }
    }
  }

  // ---- locating a block ----

  /** The rows before, in and after block `k`. */
  ghost function Front(bs: seq<RulesetBlock>, k: nat): seq<Rule>
    requires k < |bs|
  {
    Flatten(bs[..k])
  }

  ghost function Tail(bs: seq<RulesetBlock>, k: nat): seq<Rule>
    requires k < |bs|
  {
    Flatten(bs[k + 1..])
  }

  lemma {:induction false} FlattenParts(bs: seq<RulesetBlock>, k: nat)
    requires k < |bs|
    ensures Flatten(bs) == Front(bs, k) + bs[k].rules + Tail(bs, k)
  {
    assert bs == bs[..k + 1] + bs[k + 1..];
    FlattenConcat(bs[..k + 1], bs[k + 1..]);
    assert bs[..k + 1] == bs[..k] + [bs[k]];
    FlattenAppend(bs[..k], bs[k]);
  }

  lemma {:induction false} PartsLackRuleset(bs: seq<RulesetBlock>, k: nat)
    requires WellBlocked(bs) && k < |bs|
    ensures !HasRuleset(Front(bs, k), bs[k].id) && !HasRuleset(Tail(bs, k), bs[k].id)
  {
    FlattenHasRuleset(bs[..k], bs[k].id);
    FlattenHasRuleset(bs[k + 1..], bs[k].id);
  }

  lemma {:induction false} SplitAtBlock(rules: seq<Rule>, k: nat)
    requires Grouped(rules) && k < |Runs(rules)|
    ensures WellBlocked(Runs(rules)) && Runs(rules)[k].Uniform()
    ensures var bs := Runs(rules);
            && rules == Front(bs, k) + bs[k].rules + Tail(bs, k)
            && !HasRuleset(Front(bs, k), bs[k].id) && !HasRuleset(Tail(bs, k), bs[k].id)
  {
    FlattenRuns(rules);
    RunsWellBlocked(rules);
    FlattenParts(Runs(rules), k);
    PartsLackRuleset(Runs(rules), k);
  }

  lemma {:induction false} BlockOf(rules: seq<Rule>, rs: Id) returns (k: nat)
    requires Grouped(rules) && HasRuleset(rules, rs)
    ensures k < |Runs(rules)| && Runs(rules)[k].id == rs
  {
    FlattenRuns(rules);
    RunsWellBlocked(rules);
    FlattenHasRuleset(Runs(rules), rs);
    k :| 0 <= k < |Runs(rules)| && Runs(rules)[k].id == rs;
  }

  lemma {:induction false} EndOfSplit(a: seq<Rule>, b: seq<Rule>, c: seq<Rule>, rs: Id)
    requires b != [] && b[|b| - 1].ruleset == rs && !HasRuleset(c, rs)
    ensures EndOf(a + b + c, rs) == |a| + |b|
  {
    if c != [] {
      assert c[|c| - 1].ruleset != rs;
      assert (a + b + c)[..|a + b + c| - 1] == a + b + c[..|c| - 1];
      assert !HasRuleset(c[..|c| - 1], rs);
      EndOfSplit(a, b, c[..|c| - 1], rs);
    } else {
      assert a + b + c == a + b;
    }
  }

  lemma {:induction false} FirstOfSplit(a: seq<Rule>, b: seq<Rule>, rs: Id)
    requires !HasRuleset(a, rs) && b != [] && b[0].ruleset == rs
    ensures FirstOf(a + b, rs) == |a|
  {
    if a == [] {
      assert a + b == b;
    } else {
      assert a[0].ruleset != rs;
      forall i | 0 <= i < |a[1..]| ensures a[1..][i].ruleset != rs {
        assert a[i + 1].ruleset != rs;
      }
      FirstOfSplit(a[1..], b, rs);
      assert (a + b)[1..] == a[1..] + b;
    }
  }

  lemma {:induction false} NoRulesetNoFilter(rules: seq<Rule>, rs: Id)
    requires !HasRuleset(rules, rs)
    ensures Without(rules, rs) == rules
  {
    FilterAll(Outside(rs), rules);
  }

  lemma {:induction false} WithoutOwn(rules: seq<Rule>, rs: Id)
    requires RulesetBlock(rs, rules).Uniform()
    ensures Without(rules, rs) == []
  {
    FilterNone(Outside(rs), rules);
  }

  lemma {:induction false} WithoutParts(a: seq<Rule>, b: seq<Rule>, c: seq<Rule>, rs: Id)
    ensures Without(a + b + c, rs) == Without(a, rs) + Without(b, rs) + Without(c, rs)
  {
    FilterConcat(Outside(rs), a + b, c);
    FilterConcat(Outside(rs), a, b);
  }

  /** Removing a block leaves exactly the rows around it. */
  lemma {:induction false} WithoutBlock(a: seq<Rule>, b: seq<Rule>, c: seq<Rule>, rs: Id)
    requires !HasRuleset(a, rs) && !HasRuleset(c, rs) && RulesetBlock(rs, b).Uniform()
    ensures Without(a + b + c, rs) == a + c
  {
    WithoutParts(a, b, c, rs);
    NoRulesetNoFilter(a, rs);
    NoRulesetNoFilter(c, rs);
    WithoutOwn(b, rs);
  }

  /** Rewriting the rows of one block in place. */
  lemma {:induction false} ReplaceBlock(bs: seq<RulesetBlock>, k: nat, b: RulesetBlock)
    requires WellBlocked(bs) && k < |bs| && b.Uniform() && b.id == bs[k].id
    ensures WellBlocked(bs[k := b])
    ensures var out := Front(bs, k) + b.rules + Tail(bs, k); Grouped(out) && Runs(out) == bs[k := b]
  {
    var bs' := bs[k := b];
    FlattenParts(bs', k);
    assert bs'[..k] == bs[..k] && bs'[k + 1..] == bs[k + 1..];
    assert WellBlocked(bs') by {
      forall i, j | 0 <= i < j < |bs'| ensures bs'[i].id != bs'[j].id {
        assert bs[i].id != bs[j].id;
      }
    }
    FlattenGrouped(bs');
    RunsOfFlatten(bs');
  }

  // ---- the operations ----

  function CreateRows(rules: seq<Rule>, name: string, target: Target, matchers: seq<Matcher>): seq<Rule> {
    rules + NewRows(MaxRule(rules), matchers, target, Minted(MaxRuleset(rules) + 1), name, false)
  }

  function CreatedBlock(rules: seq<Rule>, name: string, target: Target, matchers: seq<Matcher>): RulesetBlock {
    var rs := Minted(MaxRuleset(rules) + 1);
    RulesetBlock(rs, NewRows(MaxRule(rules), matchers, target, rs, name, false))
  }

  lemma {:induction false} FreshRuleset(rules: seq<Rule>, n: nat)
    requires MaxRuleset(rules) < n
    ensures !HasRuleset(rules, Minted(n))
  {
    forall i | 0 <= i < |rules| ensures rules[i].ruleset != Minted(n) {
      assert rules[i] in rules;
    }
  }

  /** A created ruleset is one new block behind all others. */
  lemma {:induction false} CreateAppendsBlock(rules: seq<Rule>, name: string, target: Target, matchers: seq<Matcher>)
    requires Grouped(rules) && matchers != []
    ensures var out := CreateRows(rules, name, target, matchers);
            && Grouped(out)
            && Runs(out) == Runs(rules) + [CreatedBlock(rules, name, target, matchers)]
  {
    var rs := Minted(MaxRuleset(rules) + 1);
    var rows := NewRows(MaxRule(rules), matchers, target, rs, name, false);
    FreshRuleset(rules, MaxRuleset(rules) + 1);
    AppendRun(rules, rows, rs, target);
    LastBlockIs(rules);
    RunsOfRun(rules, rows, rs);
  }

  lemma {:induction false} LastBlockIs(rules: seq<Rule>)
    ensures rules != [] ==> Runs(rules) != [] && HasRuleset(rules, Runs(rules)[|Runs(rules)| - 1].id)
    ensures rules == [] ==> Runs(rules) == []
  {
    FlattenRuns(rules);
    if rules != [] {
      assert HasRuleset(rules, rules[|rules| - 1].ruleset);
    }
  }

  lemma {:induction false} CreateUnique(rules: seq<Rule>, name: string, target: Target, matchers: seq<Matcher>)
    requires UniqueIds(rules)
    ensures UniqueIds(CreateRows(rules, name, target, matchers))
  {
    var rs := Minted(MaxRuleset(rules) + 1);
    NewRowsUnique(rules, MaxRule(rules), matchers, target, rs, name, false);
    UniqueConcat(rules, NewRows(MaxRule(rules), matchers, target, rs, name, false));
  }

  function AddRows(rules: seq<Rule>, rs: Id, target: Target, name: string, matchers: seq<Matcher>): seq<Rule> {
    var end := EndOf(rules, rs);
    rules[..end] + NewRows(MaxRule(rules), matchers, target, rs, name, false) + rules[end..]
  }

  lemma {:induction false} InsertAfterMid(a: seq<Rule>, b: seq<Rule>, c: seq<Rule>, rows: seq<Rule>, rs: Id)
    requires b != [] && b[|b| - 1].ruleset == rs && !HasRuleset(c, rs)
    ensures var all, end := a + b + c, EndOf(a + b + c, rs);
            all[..end] + rows + all[end..] == a + (b + rows) + c
  {
    EndOfSplit(a, b, c, rs);
    var all, end := a + b + c, |a| + |b|;
    assert all[..end] == a + b && all[end..] == c;
  }

  /** Inserting rows of block `k` at the end of block `k`. */
  lemma {:induction false} InsertAtBlockEnd(rules: seq<Rule>, k: nat, rows: seq<Rule>)
    requires Grouped(rules) && k < |Runs(rules)| && Runs(rules)[k].rules != []
    requires forall i :: 0 <= i < |rows| ==>
               rows[i].ruleset == Runs(rules)[k].id && rows[i].target == Runs(rules)[k].Target()
    ensures var b := Runs(rules)[k];
            var end := EndOf(rules, b.id);
            var out := rules[..end] + rows + rules[end..];
            Grouped(out) && Runs(out) == Runs(rules)[k := RulesetBlock(b.id, b.rules + rows)]
  {
    var bs := Runs(rules);
    var b := bs[k];
    SplitAtBlock(rules, k);
    InsertAfterMid(Front(bs, k), b.rules, Tail(bs, k), rows, b.id);
    var grown := RulesetBlock(b.id, b.rules + rows);
    assert grown.Uniform();
    ReplaceBlock(bs, k, grown);
  }

  /** Added matchers extend their block at its end; every other block and the order of blocks stay. */
  lemma {:induction false} AddExtendsBlock(rules: seq<Rule>, k: nat, matchers: seq<Matcher>)
    requires Grouped(rules) && k < |Runs(rules)| && Runs(rules)[k].rules != []
    ensures var b := Runs(rules)[k];
            var out := AddRows(rules, b.id, b.Target(), b.Name(), matchers);
            var rows := NewRows(MaxRule(rules), matchers, b.Target(), b.id, b.Name(), false);
            Grouped(out) && Runs(out) == Runs(rules)[k := RulesetBlock(b.id, b.rules + rows)]
  {
    var b := Runs(rules)[k];
    InsertAtBlockEnd(rules, k, NewRows(MaxRule(rules), matchers, b.Target(), b.id, b.Name(), false));
  }

  lemma {:induction false} AddUnique(rules: seq<Rule>, rs: Id, target: Target, name: string, matchers: seq<Matcher>)
    requires UniqueIds(rules)
    ensures UniqueIds(AddRows(rules, rs, target, name, matchers))
  {
    var end := EndOf(rules, rs);
    NewRowsUnique(rules, MaxRule(rules), matchers, target, rs, name, false);
    assert rules[..end] + rules[end..] == rules;
    UniqueInsert(rules[..end], NewRows(MaxRule(rules), matchers, target, rs, name, false), rules[end..]);
  }

  function UpdateRows(rules: seq<Rule>, rs: Id, name: string, target: Target, matchers: seq<Matcher>): seq<Rule> {
    var kept := Without(rules, rs);
    var first := FirstOf(rules, rs);
    var at := if first < |kept| then first else |kept|;
    kept[..at] + NewRows(MaxRule(kept), matchers, target, rs, name, false) + kept[at..]
  }

  lemma {:induction false} UpdateShape(a: seq<Rule>, b: seq<Rule>, c: seq<Rule>, rs: Id, name: string, target: Target,
                                       matchers: seq<Matcher>)
    requires !HasRuleset(a, rs) && !HasRuleset(c, rs) && RulesetBlock(rs, b).Uniform()
    ensures UpdateRows(a + b + c, rs, name, target, matchers)
            == a + UpdatedBlock(a + b + c, rs, name, target, matchers).rules + c
  {
    WithoutBlock(a, b, c, rs);
    assert a + b + c == a + (b + c);
    FirstOfSplit(a, b + c, rs);
    var kept := a + c;
    assert kept[..|a|] == a && kept[|a|..] == c;
  }

  function UpdatedBlock(rules: seq<Rule>, rs: Id, name: string, target: Target, matchers: seq<Matcher>): RulesetBlock {
    RulesetBlock(rs, NewRows(MaxRule(Without(rules, rs)), matchers, target, rs, name, false))
  }

  /** An updated ruleset keeps its id and its place among the blocks; nothing else moves. */
  lemma {:induction false} UpdateKeepsPosition(rules: seq<Rule>, k: nat, name: string, target: Target,
                                               matchers: seq<Matcher>)
    requires Grouped(rules) && k < |Runs(rules)| && matchers != []
    ensures var rs := Runs(rules)[k].id;
            var out := UpdateRows(rules, rs, name, target, matchers);
            Grouped(out) && Runs(out) == Runs(rules)[k := UpdatedBlock(rules, rs, name, target, matchers)]
  {
    var b := UpdatedBlock(rules, Runs(rules)[k].id, name, target, matchers);
    assert b.Uniform();
    var bs := Runs(rules);
    SplitAtBlock(rules, k);
    UpdateShape(Front(bs, k), bs[k].rules, Tail(bs, k), bs[k].id, name, target, matchers);
    ReplaceBlock(bs, k, b);
  }

  lemma {:induction false} UpdateUnique(rules: seq<Rule>, rs: Id, name: string, target: Target, matchers: seq<Matcher>)
    requires UniqueIds(rules)
    ensures UniqueIds(UpdateRows(rules, rs, name, target, matchers))
  {
    var kept := Without(rules, rs);
    var first := FirstOf(rules, rs);
    var at := if first < |kept| then first else |kept|;
    FilterUnique(Outside(rs), rules);
    NewRowsUnique(kept, MaxRule(kept), matchers, target, rs, name, false);
    assert kept[..at] + kept[at..] == kept;
    UniqueInsert(kept[..at], NewRows(MaxRule(kept), matchers, target, rs, name, false), kept[at..]);
  }
}
