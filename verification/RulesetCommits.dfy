/** What the edits of rules and rulesets commit, row by row. */
module RulesetCommits {
  import opened Common
  import opened Routes
  import opened State
  import opened RulesetOps
  import opened RulesetMoves
  import opened RulesetOrder
  import opened Setup
  import opened Operations

  // ---- rows that stay, in their order ----

  function CountIf(p: Rule -> bool, rules: seq<Rule>, n: nat): nat
    requires n <= |rules|
  {
    if n == 0 then 0 else CountIf(p, rules, n - 1) + (if p(rules[n - 1]) then 1 else 0)
  }

  /** `out` is the rows that satisfy `p`, in their order: each stands behind as many as precede it, and there is nothing
      else. */
  ghost predicate Picks(out: seq<Rule>, rules: seq<Rule>, p: Rule -> bool) {
    && |out| == CountIf(p, rules, |rules|)
    && forall i :: 0 <= i < |rules| && p(rules[i]) ==>
         CountIf(p, rules, i) < |out| && out[CountIf(p, rules, i)] == rules[i]
  }

  lemma {:induction false} CountInFront(p: Rule -> bool, rules: seq<Rule>, m: nat, n: nat)
    requires m <= n <= |rules|
    ensures CountIf(p, rules[..n], m) == CountIf(p, rules, m)
  {
    if m > 0 {
      CountInFront(p, rules, m - 1, n);
    }
  }

  lemma {:induction false} PicksGrows(out: seq<Rule>, rules: seq<Rule>, p: Rule -> bool, n: nat)
    requires n + 1 == |rules| && Picks(out, rules[..n], p)
    ensures Picks(out + (if p(rules[n]) then [rules[n]] else []), rules, p)
  {
    CountInFront(p, rules, n, n);
    forall i | 0 <= i < n && p(rules[i])
      ensures CountIf(p, rules, i) < |out| && out[CountIf(p, rules, i)] == rules[i]
    {
      CountInFront(p, rules, i, n);
      assert rules[..n][i] == rules[i];
    }
  }

  lemma {:induction false} FilterPicks(p: Rule -> bool, rules: seq<Rule>)
    ensures Picks(Filter(p, rules), rules, p)
  {
    if rules != [] {
      FilterPicks(p, rules[..|rules| - 1]);
      PicksGrows(Filter(p, rules[..|rules| - 1]), rules, p, |rules| - 1);
    }
  }

  // ---- new rows ----

  /** Rows made for these matchers: hand-made, under ids that no row of `old_` and no other of them has. */
  ghost predicate FreshRows(rows: seq<Rule>, old_: seq<Rule>, matchers: seq<Matcher>, target: Target, rs: Id,
                            name: string) {
    && |rows| == |matchers|
    && (forall k :: 0 <= k < |rows| ==>
          && rows[k].matcher == matchers[k] && rows[k].target == target && rows[k].ruleset == rs
          && rows[k].name == name && !rows[k].managed && !HasId(old_, rows[k].id))
    && (forall k, l :: 0 <= k < l < |rows| ==> rows[k].id != rows[l].id)
  }

  lemma {:induction false} NewRowsAreFresh(old_: seq<Rule>, matchers: seq<Matcher>, target: Target, rs: Id,
                                           name: string)
    ensures FreshRows(NewRows(MaxRule(old_), matchers, target, rs, name, false), old_, matchers, target, rs, name)
  {
    forall i | 0 <= i < |old_| ensures Num(old_[i].id) <= MaxRule(old_) {
      assert old_[i] in old_;
    }
  }

  // ---- creating, extending, updating ----

  /** A new ruleset stands behind all rows, under an id that was not in use. */
  ghost predicate Created(s: State, t: State, name: string, target: Target, matchers: seq<Matcher>) {
    t == s.(rules := t.rules) && RowsCreated(s.rules, t.rules, name, target, matchers)
  }

  lemma {:induction false} CreateCommits(s: State, name: string, target: Target, matchers: seq<Matcher>)
    requires CreateRuleset(s, name, target, matchers).Ok?
    ensures Created(s, CreateRuleset(s, name, target, matchers).value, name, target, matchers)
  {
    CreatedRows(s.rules, name, target, matchers);
  }

  ghost predicate RowsCreated(rules: seq<Rule>, out: seq<Rule>, name: string, target: Target, matchers: seq<Matcher>) {
    exists rs, rows :: out == rules + rows && FreshRows(rows, rules, matchers, target, rs, name)
      && !HasRuleset(rules, rs)
  }

  lemma {:induction false} CreatedRows(rules: seq<Rule>, name: string, target: Target, matchers: seq<Matcher>)
    ensures RowsCreated(rules, CreateRows(rules, name, target, matchers), name, target, matchers)
  {
    var rs := Minted(MaxRuleset(rules) + 1);
    FreshRuleset(rules, MaxRuleset(rules) + 1);
    NewRowsAreFresh(rules, matchers, target, rs, name);
    var rows := NewRows(MaxRule(rules), matchers, target, rs, name, false);
    assert FreshRows(rows, rules, matchers, target, rs, name);
  }

  /** The rows of ruleset `rs` lie between `a` and `c`. */
  ghost predicate Around(a: seq<Rule>, b: seq<Rule>, c: seq<Rule>, rs: Id) {
    && b != [] && (forall i :: 0 <= i < |b| ==> b[i].ruleset == rs)
    && !HasRuleset(a, rs) && !HasRuleset(c, rs)
  }

  lemma {:induction false} SplitAround(rules: seq<Rule>, rs: Id) returns (a: seq<Rule>, b: seq<Rule>, c: seq<Rule>)
    requires Grouped(rules) && HasRuleset(rules, rs)
    ensures rules == a + b + c && Around(a, b, c, rs) && RulesetBlock(rs, b).Uniform()
    ensures HasBlock(Runs(rules), rs) && BlockById(Runs(rules), rs) == RulesetBlock(rs, b)
  {
    var k := BlockOf(rules, rs);
    SplitAtBlock(rules, k);
    var bs := Runs(rules);
    a, b, c := Front(bs, k), bs[k].rules, Tail(bs, k);
    BlockIsOnly(bs, k);
  }

  lemma {:induction false} BlockIsOnly(bs: seq<RulesetBlock>, k: nat)
    requires WellBlocked(bs) && k < |bs|
    ensures HasBlock(bs, bs[k].id) && BlockById(bs, bs[k].id) == bs[k]
  {
    var b := BlockById(bs, bs[k].id);
    var j :| 0 <= j < |bs| && bs[j] == b;
    assert j == k;
  }

  /** The name a ruleset goes by: its first row's, or the target's. */
  function NameOf(first: Rule): string {
    if first.name == "" then TargetName(first.target) else first.name
  }

  /** New rows stand right behind the ruleset's last row, with its target and name. */
  ghost predicate Extended(s: State, t: State, rs: Id, matchers: seq<Matcher>) {
    && t == s.(rules := t.rules)
    && exists a: seq<Rule>, b: seq<Rule>, c: seq<Rule>, rows: seq<Rule> ::
         s.rules == a + b + c && Around(a, b, c, rs) && t.rules == a + b + rows + c
         && FreshRows(rows, s.rules, matchers, b[0].target, rs, NameOf(b[0]))
  }

  lemma {:induction false} AddCommits(s: State, rs: Id, matchers: seq<Matcher>)
    requires AddMatchers(s, rs, matchers).Ok?
    ensures Extended(s, AddMatchers(s, rs, matchers).value, rs, matchers)
  {
    FlattenRuns(s.rules);
    HasBlockHasRuleset(s.rules, rs);
    var a, b, c := SplitAround(s.rules, rs);
    EndOfSplit(a, b, c, rs);
    NewRowsAreFresh(s.rules, matchers, b[0].target, rs, NameOf(b[0]));
    var rows := NewRows(MaxRule(s.rules), matchers, b[0].target, rs, NameOf(b[0]), false);
    assert (a + b + c)[..|a| + |b|] == a + b && (a + b + c)[|a| + |b|..] == c;
    assert FreshRows(rows, s.rules, matchers, b[0].target, rs, NameOf(b[0]));
  }

  lemma {:induction false} HasBlockHasRuleset(rules: seq<Rule>, rs: Id)
    requires Grouped(rules) && HasBlock(Runs(rules), rs)
    ensures HasRuleset(rules, rs)
  {
    FlattenRuns(rules);
    RunsWellBlocked(rules);
    FlattenHasRuleset(Runs(rules), rs);
  }

  /** The ruleset's rows are replaced where they stand; id and place stay, everything else is new. */
  ghost predicate Replaced(s: State, t: State, rs: Id, name: string, target: Target, matchers: seq<Matcher>) {
    && t == s.(rules := t.rules)
    && exists a: seq<Rule>, b: seq<Rule>, c: seq<Rule>, rows: seq<Rule> ::
         s.rules == a + b + c && Around(a, b, c, rs) && t.rules == a + rows + c
         && FreshRows(rows, a + c, matchers, target, rs, name)
  }

  lemma {:induction false} UpdateCommits(s: State, rs: Id, name: string, target: Target, matchers: seq<Matcher>,
                                         expected: Option<RulesetBlock>)
    requires UpdateRuleset(s, rs, name, target, matchers, expected).Ok?
    ensures Replaced(s, UpdateRuleset(s, rs, name, target, matchers, expected).value, rs, name, target, matchers)
  {
    var a, b, c := SplitAround(s.rules, rs);
    UpdateShape(a, b, c, rs, name, target, matchers);
    WithoutBlock(a, b, c, rs);
    NewRowsAreFresh(a + c, matchers, target, rs, name);
    var rows := NewRows(MaxRule(a + c), matchers, target, rs, name, false);
    assert FreshRows(rows, a + c, matchers, target, rs, name);
  }

  // ---- rewriting ----

  ghost predicate Renamed(s: State, t: State, rs: Id, name: string) {
    && t == s.(rules := t.rules) && |t.rules| == |s.rules|
    && forall i :: 0 <= i < |s.rules| ==>
         t.rules[i] == if s.rules[i].ruleset == rs then s.rules[i].(name := name) else s.rules[i]
  }

  ghost predicate Retargeted(s: State, t: State, rs: Id, target: Target) {
    && t == s.(rules := t.rules) && |t.rules| == |s.rules|
    && forall i :: 0 <= i < |s.rules| ==>
         t.rules[i] == if s.rules[i].ruleset == rs then s.rules[i].(target := target) else s.rules[i]
  }

  lemma {:induction false} RewriteCommits(s: State, rs: Id, name: string, target: Target)
    ensures RenameRuleset(s, rs, name).Ok? ==> Renamed(s, RenameRuleset(s, rs, name).value, rs, name)
    ensures RetargetRuleset(s, rs, target).Ok? ==> Retargeted(s, RetargetRuleset(s, rs, target).value, rs, target)
  {
  }

  // ---- removing ----

  ghost predicate RulesetGone(s: State, t: State, rs: Id) {
    t == s.(rules := t.rules) && Picks(t.rules, s.rules, (r: Rule) => r.ruleset != rs)
  }

  ghost predicate RulesGone(s: State, t: State, ids: seq<Id>) {
    t == s.(rules := t.rules) && Picks(t.rules, s.rules, (r: Rule) => r.id !in ids)
  }

  lemma {:induction false} SameCount(p: Rule -> bool, q: Rule -> bool, rules: seq<Rule>, n: nat)
    requires n <= |rules| && forall i :: 0 <= i < |rules| ==> p(rules[i]) == q(rules[i])
    ensures CountIf(p, rules, n) == CountIf(q, rules, n)
  {
    if n > 0 {
      SameCount(p, q, rules, n - 1);
    }
  }

  lemma {:induction false} PicksSame(out: seq<Rule>, rules: seq<Rule>, p: Rule -> bool, q: Rule -> bool)
    requires Picks(out, rules, p) && forall i :: 0 <= i < |rules| ==> p(rules[i]) == q(rules[i])
    ensures Picks(out, rules, q)
  {
    SameCount(p, q, rules, |rules|);
    forall i | 0 <= i < |rules| && q(rules[i])
      ensures CountIf(q, rules, i) < |out| && out[CountIf(q, rules, i)] == rules[i]
    {
      SameCount(p, q, rules, i);
    }
  }

  lemma {:induction false} RemoveCommits(s: State, rs: Id, ids: seq<Id>)
    ensures RemoveRuleset(s, rs).Ok? ==> RulesetGone(s, RemoveRuleset(s, rs).value, rs)
    ensures RulesGone(s, RemoveRules(s, ids), ids)
  {
    FilterPicks(Outside(rs), s.rules);
    PicksSame(Without(s.rules, rs), s.rules, Outside(rs), (r: Rule) => r.ruleset != rs);
    FilterPicks(NotNamed(SetOf(ids)), s.rules);
    PicksSame(WithoutIds(s.rules, SetOf(ids)), s.rules, NotNamed(SetOf(ids)), (r: Rule) => r.id !in ids);
  }

  // ---- moving ----

  /** `wanted` lists what `ids` names, each once, in the order of first mention. */
  ghost predicate FirstMentions(wanted: seq<Id>, ids: seq<Id>) {
    && (forall id :: id in wanted <==> id in ids)
    && (forall k, l :: 0 <= k < l < |wanted| ==> wanted[k] != wanted[l] && MentionedBefore(wanted[k], wanted[l], ids))
  }

  /** `a` is mentioned before `b` is for the first time. */
  ghost predicate MentionedBefore(a: Id, b: Id, ids: seq<Id>) {
    exists i :: 0 <= i < |ids| && ids[i] == a && b !in ids[..i]
  }

  lemma {:induction false} MentionedStill(a: Id, b: Id, ids: seq<Id>, more: Id)
    requires MentionedBefore(a, b, ids)
    ensures MentionedBefore(a, b, ids + [more])
  {
    var i :| 0 <= i < |ids| && ids[i] == a && b !in ids[..i];
    assert (ids + [more])[..i] == ids[..i] && (ids + [more])[i] == a;
  }

  lemma {:induction false} MentionedFirst(a: Id, b: Id, ids: seq<Id>)
    requires a in ids && b !in ids
    ensures MentionedBefore(a, b, ids + [b])
  {
    var i :| 0 <= i < |ids| && ids[i] == a;
    assert (ids + [b])[..i] == ids[..i] && (ids + [b])[i] == a;
  }

  lemma {:induction false} DedupKeepsOrder(ids: seq<Id>)
    ensures FirstMentions(Dedup(ids), ids)
  {
    if ids != [] {
      var front, last := ids[..|ids| - 1], ids[|ids| - 1];
      var before := Dedup(front);
      DedupKeepsOrder(front);
      assert ids == front + [last];
      forall k, l | 0 <= k < l < |Dedup(ids)| ensures MentionedBefore(Dedup(ids)[k], Dedup(ids)[l], ids) {
        if l < |before| {
          MentionedStill(before[k], before[l], front, last);
        } else {
          MentionedFirst(before[k], last, front);
        }
      }
    }
  }

  /** The row an id names, under its new ruleset. */
  ghost predicate MovedFrom(rules: seq<Rule>, id: Id, moved: Rule, rs: Id, name: string, target: Target) {
    exists i :: 0 <= i < |rules| && rules[i].id == id
      && moved == rules[i].(ruleset := rs, name := name, target := target)
  }

  /** The named rows stand right behind the destination's last row, in the order of first mention, under its id, name
      and target; all other rows keep their order. */
  ghost predicate RowsMoved(rules: seq<Rule>, out: seq<Rule>, ids: seq<Id>, rs: Id) {
    exists a: seq<Rule>, b: seq<Rule>, c: seq<Rule>, wanted: seq<Id>, moved: seq<Rule> ::
      && out == a + b + moved + c && Around(a, b, c, rs) && Picks(a + b + c, rules, (r: Rule) => r.id !in ids)
      && FirstMentions(wanted, ids) && AllMoved(rules, wanted, moved, rs, NameOf(b[0]), b[0].target)
  }

  ghost predicate AllMoved(rules: seq<Rule>, wanted: seq<Id>, moved: seq<Rule>, rs: Id, name: string, target: Target) {
    && |moved| == |wanted|
    && forall k :: 0 <= k < |moved| ==> MovedFrom(rules, wanted[k], moved[k], rs, name, target)
  }

  ghost predicate MovedInto(s: State, t: State, ids: seq<Id>, rs: Id) {
    t == s.(rules := t.rules) && RowsMoved(s.rules, t.rules, ids, rs)
  }

  lemma {:induction false} MoveCommits(s: State, ids: seq<Id>, rs: Id)
    requires Inv(s) && MoveRules(s, ids, rs).Ok?
    ensures MovedInto(s, MoveRules(s, ids, rs).value, ids, rs)
  {
    MoveAccepted(s, ids, rs);
    HasBlockHasRuleset(s.rules, rs);
    var a, b, c := SplitAround(s.rules, rs);
    var dest := RulesetBlock(rs, b);
    assert dest.Name() == NameOf(b[0]) && dest.Target() == b[0].target;
    MovedRowsAre(s.rules, Dedup(ids), rs, a, b, c, ids);
  }

  lemma {:induction false} MoveAccepted(s: State, ids: seq<Id>, rs: Id)
    requires MoveRules(s, ids, rs).Ok?
    ensures var wanted := Dedup(ids);
            && Grouped(s.rules) && HasBlock(Runs(s.rules), rs) && BlockById(Runs(s.rules), rs).rules != []
            && AllNamed(s.rules, wanted) && NoneInside(s.rules, wanted, rs)
            && var dest := BlockById(Runs(s.rules), rs);
               MoveRules(s, ids, rs).value
               == s.(rules := MoveRows(s.rules, wanted, rs, dest.Name(), dest.Target()))
  {
    FlattenRuns(s.rules);
  }

  lemma {:induction false} MovedRowsAre(rules: seq<Rule>, wanted: seq<Id>, rs: Id, a0: seq<Rule>, b0: seq<Rule>,
                                        c0: seq<Rule>, ids: seq<Id>)
    requires UniqueIds(rules) && rules == a0 + b0 + c0 && Around(a0, b0, c0, rs) && wanted == Dedup(ids)
    requires forall i :: 0 <= i < |wanted| ==> HasId(rules, wanted[i]) && RowById(rules, wanted[i]).ruleset != rs
    ensures RowsMoved(rules, MoveRows(rules, wanted, rs, NameOf(b0[0]), b0[0].target), ids, rs)
  {
    var kept := WithoutIds(rules, SetOf(wanted));
    var a, b, c := KeptAround(rules, wanted, rs, a0, b0, c0);
    EndOfSplit(a, b, c, rs);
    DedupKeepsOrder(ids);
    FilterPicks(NotNamed(SetOf(wanted)), rules);
    PicksSame(kept, rules, NotNamed(SetOf(wanted)), (r: Rule) => r.id !in ids);
    assert kept[..|a| + |b|] == a + b && kept[|a| + |b|..] == c;
    RowsAreMoved(rules, wanted, rs, NameOf(b[0]), b[0].target);
  }

  lemma {:induction false} RowsAreMoved(rules: seq<Rule>, wanted: seq<Id>, rs: Id, name: string, target: Target)
    requires forall i :: 0 <= i < |wanted| ==> HasId(rules, wanted[i])
    ensures AllMoved(rules, wanted, MovedRows(rules, wanted, rs, name, target), rs, name, target)
  {
    var moved := MovedRows(rules, wanted, rs, name, target);
    forall k | 0 <= k < |moved| ensures MovedFrom(rules, wanted[k], moved[k], rs, name, target) {
      var r := RowById(rules, wanted[k]);
      var i :| 0 <= i < |rules| && rules[i] == r;
      assert rules[i].id == wanted[k];
    }
  }

  /** Taking rows of other rulesets away leaves the destination's rows together and untouched. */
  lemma {:induction false} KeptAround(rules: seq<Rule>, wanted: seq<Id>, rs: Id, a0: seq<Rule>, b0: seq<Rule>,
                                      c0: seq<Rule>) returns (a: seq<Rule>, b: seq<Rule>, c: seq<Rule>)
    requires UniqueIds(rules) && rules == a0 + b0 + c0 && Around(a0, b0, c0, rs)
    requires forall i :: 0 <= i < |wanted| ==> HasId(rules, wanted[i]) && RowById(rules, wanted[i]).ruleset != rs
    ensures WithoutIds(rules, SetOf(wanted)) == a + b + c && Around(a, b, c, rs) && b == b0
  {
    var p := NotNamed(SetOf(wanted));
    FilterConcat(p, a0 + b0, c0);
    FilterConcat(p, a0, b0);
    forall i | 0 <= i < |b0| ensures p(b0[i]) {
      assert rules[|a0| + i] == b0[i];
      NotWanted(rules, wanted, rs, |a0| + i);
    }
    FilterAll(p, b0);
    a, b, c := Filter(p, a0), b0, Filter(p, c0);
    FilterHasRuleset(p, a0, rs);
    FilterHasRuleset(p, c0, rs);
  }

  lemma {:induction false} NotWanted(rules: seq<Rule>, wanted: seq<Id>, rs: Id, i: nat)
    requires UniqueIds(rules) && i < |rules| && rules[i].ruleset == rs
    requires forall k :: 0 <= k < |wanted| ==> HasId(rules, wanted[k]) && RowById(rules, wanted[k]).ruleset != rs
    ensures rules[i].id !in SetOf(wanted)
  {
    forall k | 0 <= k < |wanted| ensures wanted[k] != rules[i].id {
      var r := RowById(rules, wanted[k]);
      var j :| 0 <= j < |rules| && rules[j] == r;
      assert j != i;
    }
  }

  // ---- reordering ----

  /** Every row is at the place the new order gives its id. */
  ghost predicate RowsOrdered(s: State, t: State, ids: seq<Id>) {
    && t == s.(rules := t.rules) && |t.rules| == |ids|
    && forall i :: 0 <= i < |ids| ==> t.rules[i].id == ids[i] && t.rules[i] in s.rules
  }

  lemma {:induction false} OrderCommits(s: State, ids: seq<Id>)
    requires ReorderRules(s, ids).Ok?
    ensures RowsOrdered(s, ReorderRules(s, ids).value, ids)
  {
    PermutationNamesRows(s.rules, ids);
    RowsByIdAre(s.rules, ids);
  }

  lemma {:induction false} RowsByIdAre(rules: seq<Rule>, ids: seq<Id>)
    requires forall i :: 0 <= i < |ids| ==> HasId(rules, ids[i])
    ensures |RowsById(rules, ids)| == |ids|
    ensures forall i :: 0 <= i < |ids| ==> RowsById(rules, ids)[i].id == ids[i] && RowsById(rules, ids)[i] in rules
  {
    if ids != [] {
      RowsByIdAre(rules, ids[1..]);
    }
  }

  /** Every ruleset is at the place the new order gives its id, with the very rows it had. */
  ghost predicate BlocksOrdered(s: State, t: State, ids: seq<Id>) {
    && t == s.(rules := t.rules) && |Runs(t.rules)| == |ids|
    && forall i :: 0 <= i < |ids| ==> Runs(t.rules)[i].id == ids[i] && Runs(t.rules)[i] in Runs(s.rules)
  }

  // ---- what is refused ----

  lemma {:induction false} BlockIffRuleset(rules: seq<Rule>, rs: Id)
    requires Grouped(rules)
    ensures HasBlock(Runs(rules), rs) <==> HasRuleset(rules, rs)
  {
    if HasBlock(Runs(rules), rs) {
      HasBlockHasRuleset(rules, rs);
    }
    if HasRuleset(rules, rs) {
      var a, b, c := SplitAround(rules, rs);
    }
  }

  /** The id names a row of some other ruleset. */
  ghost predicate NamesOutside(rules: seq<Rule>, id: Id, rs: Id) {
    exists i :: 0 <= i < |rules| && rules[i].id == id && rules[i].ruleset != rs
  }

  /** The ruleset exists, every id names a row, and none of these rows is in the ruleset already. */
  ghost predicate MayMove(rules: seq<Rule>, ids: seq<Id>, rs: Id) {
    HasRuleset(rules, rs) && forall k :: 0 <= k < |ids| ==> NamesOutside(rules, ids[k], rs)
  }

  lemma {:induction false} OutsideIsRow(rules: seq<Rule>, id: Id, rs: Id)
    requires UniqueIds(rules)
    ensures NamesOutside(rules, id, rs) <==> HasId(rules, id) && RowById(rules, id).ruleset != rs
  {
    if HasId(rules, id) {
      var r := RowById(rules, id);
      var j :| 0 <= j < |rules| && rules[j] == r;
      forall i | 0 <= i < |rules| && rules[i].id == id ensures i == j {
      }
    }
  }

  lemma {:induction false} MayMoveWanted(rules: seq<Rule>, ids: seq<Id>, wanted: seq<Id>, rs: Id)
    requires UniqueIds(rules) && forall id :: id in wanted <==> id in ids
    ensures (forall k :: 0 <= k < |ids| ==> NamesOutside(rules, ids[k], rs))
            <==> AllNamed(rules, wanted) && NoneInside(rules, wanted, rs)
  {
    forall id ensures NamesOutside(rules, id, rs) <==> HasId(rules, id) && RowById(rules, id).ruleset != rs {
      OutsideIsRow(rules, id, rs);
    }
    if forall k :: 0 <= k < |ids| ==> NamesOutside(rules, ids[k], rs) {
      forall j | 0 <= j < |wanted| ensures NamesOutside(rules, wanted[j], rs) {
        assert wanted[j] in ids;
      }
    } else {
      var k :| 0 <= k < |ids| && !NamesOutside(rules, ids[k], rs);
      assert ids[k] in wanted;
    }
  }

  lemma {:induction false} MoveAcceptedIff(s: State, ids: seq<Id>, rs: Id)
    requires Inv(s)
    ensures MoveRules(s, ids, rs).Ok? <==> MayMove(s.rules, ids, rs)
  {
    BlockIffRuleset(s.rules, rs);
    MayMoveWanted(s.rules, ids, Dedup(ids), rs);
    if MoveRules(s, ids, rs).Ok? {
      MoveAccepted(s, ids, rs);
    }
    if MayMove(s.rules, ids, rs) {
      MoveStaysGrouped(s, Dedup(ids), rs);
    }
  }

  lemma {:induction false} MoveStaysGrouped(s: State, wanted: seq<Id>, rs: Id)
    requires Inv(s) && HasBlock(Runs(s.rules), rs) && (forall k, l :: 0 <= k < l < |wanted| ==> wanted[k] != wanted[l])
    requires forall j :: 0 <= j < |wanted| ==> HasId(s.rules, wanted[j]) && RowById(s.rules, wanted[j]).ruleset != rs
    ensures BlockById(Runs(s.rules), rs).rules != []
    ensures var dest := BlockById(Runs(s.rules), rs);
            Grouped(MoveRows(s.rules, wanted, rs, dest.Name(), dest.Target()))
  {
    FlattenRuns(s.rules);
    BlockIffRuleset(s.rules, rs);
    var k := BlockOf(s.rules, rs);
    SplitAtBlock(s.rules, k);
    BlockIsOnly(Runs(s.rules), k);
    MoveKeepsGrouping(s.rules, wanted, k);
  }
}
