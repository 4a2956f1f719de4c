/** Operations that rewrite, move or reorder existing rows: what becomes of every block, and which identities are
    conserved. */
module RulesetMoves {
  import opened Common
  import opened Routes
  import opened State
  import opened RulesetOps

  // ---- rewriting rows in place ----

  function Retarget(r: Rule, rs: Id, target: Target): Rule {
    if r.ruleset == rs then r.(target := target) else r
  }

  function Rename(r: Rule, rs: Id, name: string): Rule {
    if r.ruleset == rs then r.(name := name) else r
  }

  function RetargetRows(rules: seq<Rule>, rs: Id, target: Target): (out: seq<Rule>)
    ensures |out| == |rules| && forall i :: 0 <= i < |rules| ==> out[i] == Retarget(rules[i], rs, target)
  {
    if rules == [] then [] else [Retarget(rules[0], rs, target)] + RetargetRows(rules[1..], rs, target)
  }

  function RenameRows(rules: seq<Rule>, rs: Id, name: string): (out: seq<Rule>)
    ensures |out| == |rules| && forall i :: 0 <= i < |rules| ==> out[i] == Rename(rules[i], rs, name)
  {
    if rules == [] then [] else [Rename(rules[0], rs, name)] + RenameRows(rules[1..], rs, name)
  }

  lemma {:induction false} SameIdsUnique(a: seq<Rule>, b: seq<Rule>)
    requires UniqueIds(a) && |a| == |b| && forall i :: 0 <= i < |a| ==> a[i].id == b[i].id
    ensures UniqueIds(b)
  {
  }

  /** `out` rewrites rows of ruleset `rs` only, keeping the id and leaving them one target. */
  ghost predicate RewritesOnly(rules: seq<Rule>, out: seq<Rule>, rs: Id) {
    && |out| == |rules|
    && (forall i :: 0 <= i < |rules| && rules[i].ruleset != rs ==> out[i] == rules[i])
    && (forall i :: 0 <= i < |rules| && rules[i].ruleset == rs ==> out[i].ruleset == rs)
    && (forall i, j :: 0 <= i < |rules| && 0 <= j < |rules| && rules[i].ruleset == rs == rules[j].ruleset
                       ==> out[i].target == out[j].target)
  }

  lemma {:induction false} RewrittenOutside(a: seq<Rule>, b: seq<Rule>, c: seq<Rule>, out: seq<Rule>, rs: Id)
    requires RewritesOnly(a + b + c, out, rs) && !HasRuleset(a, rs) && !HasRuleset(c, rs)
    ensures out[..|a|] == a && out[|a| + |b|..] == c
  {
    var all, n := a + b + c, |a| + |b|;
    forall i | 0 <= i < |a| ensures out[i] == a[i] {
      assert all[i] == a[i];
    }
    forall i | 0 <= i < |c| ensures out[n + i] == c[i] {
      assert all[n + i] == c[i];
    }
  }

  lemma {:induction false} RewrittenInside(a: seq<Rule>, b: seq<Rule>, c: seq<Rule>, out: seq<Rule>, rs: Id)
    requires RewritesOnly(a + b + c, out, rs) && b != [] && forall i :: 0 <= i < |b| ==> b[i].ruleset == rs
    ensures RulesetBlock(rs, out[|a|..|a| + |b|]).Uniform()
  {
    var all, m := a + b + c, |a|;
    forall j | m <= j < m + |b| ensures out[j].ruleset == rs && out[j].target == out[m].target {
      assert all[j] == b[j - m] && all[m] == b[0];
    }
  }

  lemma {:induction false} RewrittenParts(a: seq<Rule>, b: seq<Rule>, c: seq<Rule>, out: seq<Rule>, rs: Id)
    requires RewritesOnly(a + b + c, out, rs) && b != []
    requires !HasRuleset(a, rs) && !HasRuleset(c, rs) && forall i :: 0 <= i < |b| ==> b[i].ruleset == rs
    ensures var mid := out[|a|..|a| + |b|]; out == a + mid + c && RulesetBlock(rs, mid).Uniform()
  {
    RewrittenOutside(a, b, c, out, rs);
    RewrittenInside(a, b, c, out, rs);
    assert out == out[..|a|] + out[|a|..|a| + |b|] + out[|a| + |b|..];
  }

  /** Such a rewriting keeps the grouping and every other block. */
  lemma {:induction false} RewriteBlock(rules: seq<Rule>, k: nat, out: seq<Rule>)
    requires Grouped(rules) && k < |Runs(rules)| && RewritesOnly(rules, out, Runs(rules)[k].id)
    ensures Grouped(out) && |Runs(out)| == |Runs(rules)| && Runs(out)[k].id == Runs(rules)[k].id
    ensures forall j :: 0 <= j < |Runs(rules)| && j != k ==> Runs(out)[j] == Runs(rules)[j]
  {
    var bs := Runs(rules);
    SplitAtBlock(rules, k);
    var a, b := Front(bs, k), bs[k].rules;
    RewrittenParts(a, b, Tail(bs, k), out, bs[k].id);
    ReplaceBlock(bs, k, RulesetBlock(bs[k].id, out[|a|..|a| + |b|]));
  }

  /** Retargeting changes the target of every row of one ruleset and nothing else. */
  lemma {:induction false} RetargetKeepsGrouping(rules: seq<Rule>, rs: Id, target: Target)
    requires Grouped(rules) && UniqueIds(rules) && HasRuleset(rules, rs)
    ensures Grouped(RetargetRows(rules, rs, target)) && UniqueIds(RetargetRows(rules, rs, target))
  {
    var k := BlockOf(rules, rs);
    RewriteBlock(rules, k, RetargetRows(rules, rs, target));
    SameIdsUnique(rules, RetargetRows(rules, rs, target));
  }

  lemma {:induction false} BlockTargetsAgree(rules: seq<Rule>, i: nat, j: nat)
    requires Grouped(rules) && i < |rules| && j < |rules| && rules[i].ruleset == rules[j].ruleset
    ensures rules[i].target == rules[j].target
  {
    var rs := rules[i].ruleset;
    var k := BlockOf(rules, rs);
    var bs := Runs(rules);
    SplitAtBlock(rules, k);
    var a, b := Front(bs, k), bs[k].rules;
    RowInBlock(a, b, Tail(bs, k), rs, i);
    RowInBlock(a, b, Tail(bs, k), rs, j);
  }

  lemma {:induction false} RowInBlock(a: seq<Rule>, b: seq<Rule>, c: seq<Rule>, rs: Id, i: nat)
    requires !HasRuleset(a, rs) && !HasRuleset(c, rs)
    requires i < |a + b + c| && (a + b + c)[i].ruleset == rs
    ensures |a| <= i < |a| + |b| && (a + b + c)[i] == b[i - |a|]
  {
    assert forall m :: 0 <= m < |a| ==> a[m].ruleset != rs;
    assert forall m :: 0 <= m < |c| ==> c[m].ruleset != rs;
  }

  lemma {:induction false} RenameKeepsGrouping(rules: seq<Rule>, rs: Id, name: string)
    requires Grouped(rules) && UniqueIds(rules) && HasRuleset(rules, rs)
    ensures Grouped(RenameRows(rules, rs, name)) && UniqueIds(RenameRows(rules, rs, name))
  {
    var k := BlockOf(rules, rs);
    var out := RenameRows(rules, rs, name);
    forall i, j | 0 <= i < |rules| && 0 <= j < |rules| && rules[i].ruleset == rs == rules[j].ruleset
      ensures out[i].target == out[j].target
    {
      BlockTargetsAgree(rules, i, j);
    }
    RewriteBlock(rules, k, out);
    SameIdsUnique(rules, out);
  }

  // ---- conservation ----

  /** The identities of the rows: id, matcher type and value, with multiplicity. */
  ghost function Identities(rules: seq<Rule>): multiset<(Id, Matcher)> {
    if rules == [] then multiset{}
    else Identities(rules[..|rules| - 1]) + multiset{(rules[|rules| - 1].id, rules[|rules| - 1].matcher)}
  }

  ghost predicate HasIdentity(rules: seq<Rule>, x: (Id, Matcher)) {
    exists i :: 0 <= i < |rules| && rules[i].id == x.0 && rules[i].matcher == x.1
  }

  lemma {:induction false} IdentityCount(rules: seq<Rule>, x: (Id, Matcher))
    requires UniqueIds(rules)
    ensures Identities(rules)[x] == if HasIdentity(rules, x) then 1 else 0
  {
    if rules != [] {
      var front, last := rules[..|rules| - 1], rules[|rules| - 1];
      IdentityCount(front, x);
      if HasIdentity(front, x) {
        var i :| 0 <= i < |front| && front[i].id == x.0 && front[i].matcher == x.1;
        assert rules[i].id != last.id && HasIdentity(rules, x) by {
          assert rules[i] == front[i];
        }
      } else {
        assert forall i :: 0 <= i < |front| ==> front[i].id != x.0 || front[i].matcher != x.1;
        assert forall i :: 0 <= i < |front| ==> rules[i] == front[i];
      }
    }
  }

  /** Two row lists without repeated ids that name the same identities conserve them. */
  lemma {:induction false} SameIdentities(a: seq<Rule>, b: seq<Rule>)
    requires UniqueIds(a) && UniqueIds(b)
    requires forall x :: HasIdentity(a, x) <==> HasIdentity(b, x)
    ensures Identities(a) == Identities(b)
  {
    forall x ensures Identities(a)[x] == Identities(b)[x] {
      IdentityCount(a, x);
      IdentityCount(b, x);
    }
  }

  // ---- moving rows into another ruleset ----

  /** `dict.fromkeys(ids)`: the ids without repeats, first occurrences kept. */
  function Dedup(ids: seq<Id>): (out: seq<Id>)
    ensures forall id :: id in out <==> id in ids
    ensures forall i, j :: 0 <= i < j < |out| ==> out[i] != out[j]
  {
    if ids == [] then []
    else
      var front := Dedup(ids[..|ids| - 1]);
      var last := ids[|ids| - 1];
      assert ids == ids[..|ids| - 1] + [last];
      if last in front then front else front + [last]
  }

  lemma {:induction false} HasIdBefore(rules: seq<Rule>, id: Id)
    requires HasId(rules, id) && rules[|rules| - 1].id != id
    ensures HasId(rules[..|rules| - 1], id)
  {
    var i :| 0 <= i < |rules| && rules[i].id == id;
    assert rules[..|rules| - 1][i].id == id;
  }

  /** The row with an id; ids are unique, so which one a dict would keep does not matter. */
  function RowById(rules: seq<Rule>, id: Id): (r: Rule)
    requires HasId(rules, id)
    ensures r in rules && r.id == id
  {
    if rules[|rules| - 1].id == id then rules[|rules| - 1]
    else
      HasIdBefore(rules, id);
      RowById(rules[..|rules| - 1], id)
  }

  function MovedRows(rules: seq<Rule>, wanted: seq<Id>, rs: Id, name: string, target: Target): (rows: seq<Rule>)
    requires forall i :: 0 <= i < |wanted| ==> HasId(rules, wanted[i])
    ensures |rows| == |wanted|
    ensures forall i :: 0 <= i < |wanted| ==>
              rows[i] == RowById(rules, wanted[i]).(ruleset := rs, name := name, target := target)
  {
    if wanted == [] then []
    else [RowById(rules, wanted[0]).(ruleset := rs, name := name, target := target)]
         + MovedRows(rules, wanted[1..], rs, name, target)
  }

  function SetOf(ids: seq<Id>): set<Id> {
    set id | id in ids
  }

  function MoveRows(rules: seq<Rule>, wanted: seq<Id>, rs: Id, name: string, target: Target): seq<Rule>
    requires forall i :: 0 <= i < |wanted| ==> HasId(rules, wanted[i])
  {
    var kept := WithoutIds(rules, SetOf(wanted));
    var end := EndOf(kept, rs);
    kept[..end] + MovedRows(rules, wanted, rs, name, target) + kept[end..]
  }

  lemma {:induction false} UniqueRow(rules: seq<Rule>, r: Rule)
    requires UniqueIds(rules) && r in rules
    ensures HasId(rules, r.id) && RowById(rules, r.id) == r
  {
    var i :| 0 <= i < |rules| && rules[i] == r;
    assert rules[i].id == r.id;
    var s := RowById(rules, r.id);
    var j :| 0 <= j < |rules| && rules[j] == s;
    if i < j {
      assert rules[i].id != rules[j].id;
    } else if j < i {
      assert rules[j].id != rules[i].id;
    }
  }

  /** The rows named exist, and none is already in the destination. */
  ghost predicate Movable(rules: seq<Rule>, wanted: seq<Id>, rs: Id) {
    && (forall i :: 0 <= i < |wanted| ==> HasId(rules, wanted[i]) && RowById(rules, wanted[i]).ruleset != rs)
    && (forall i, j :: 0 <= i < j < |wanted| ==> wanted[i] != wanted[j])
  }

  /** The destination block loses no row to the move, so its block survives with its target. */
  lemma {:induction false} DestinationSurvives(rules: seq<Rule>, wanted: seq<Id>, k: nat) returns (j: nat)
    requires Grouped(rules) && UniqueIds(rules) && k < |Runs(rules)| && Runs(rules)[k].rules != []
    requires Movable(rules, wanted, Runs(rules)[k].id)
    ensures var kept := WithoutIds(rules, SetOf(wanted));
            && Grouped(kept) && j < |Runs(kept)| && Runs(kept)[j].id == Runs(rules)[k].id
            && Runs(kept)[j].rules != [] && Runs(kept)[j].Target() == Runs(rules)[k].Target()
  {
    var b := Runs(rules)[k];
    var kept := WithoutIds(rules, SetOf(wanted));
    FilterGrouped(NotNamed(SetOf(wanted)), rules);
    SplitAtBlock(rules, k);
    assert b.Uniform();
    var d := b.rules[0];
    assert rules[|Front(Runs(rules), k)|] == d;
    UniqueRow(rules, d);
    assert d.id !in SetOf(wanted);
    FilterMembers(NotNamed(SetOf(wanted)), rules, d);
    var i :| 0 <= i < |kept| && kept[i] == d;
    assert HasRuleset(kept, b.id);
    j := BlockOf(kept, b.id);
    FlattenRuns(kept);
    RunsWellBlocked(kept);
    var e := Runs(kept)[j];
    assert e.Uniform();
    SplitAtBlock(kept, j);
    RowInBlock(Front(Runs(kept), j), e.rules, Tail(Runs(kept), j), b.id, i);
  }

  /** Moved rows join the end of the destination block; every ruleset stays contiguous. */
  lemma {:induction false} MoveKeepsGrouping(rules: seq<Rule>, wanted: seq<Id>, k: nat)
    requires Grouped(rules) && UniqueIds(rules) && k < |Runs(rules)| && Runs(rules)[k].rules != []
    requires Movable(rules, wanted, Runs(rules)[k].id)
    ensures var b := Runs(rules)[k]; Grouped(MoveRows(rules, wanted, b.id, b.Name(), b.Target()))
  {
    var b := Runs(rules)[k];
    var j := DestinationSurvives(rules, wanted, k);
    InsertAtBlockEnd(WithoutIds(rules, SetOf(wanted)), j, MovedRows(rules, wanted, b.id, b.Name(), b.Target()));
  }

  lemma {:induction false} MoveUnique(rules: seq<Rule>, wanted: seq<Id>, rs: Id, name: string, target: Target)
    requires UniqueIds(rules) && Movable(rules, wanted, rs)
    ensures UniqueIds(MoveRows(rules, wanted, rs, name, target))
  {
    var kept := WithoutIds(rules, SetOf(wanted));
    var rows := MovedRows(rules, wanted, rs, name, target);
    var end := EndOf(kept, rs);
    FilterUnique(NotNamed(SetOf(wanted)), rules);
    forall i | 0 <= i < |rows| ensures !HasId(kept, rows[i].id) {
      assert rows[i].id == wanted[i];
      forall m | 0 <= m < |kept| ensures kept[m].id != wanted[i] {
        FilterMembers(NotNamed(SetOf(wanted)), rules, kept[m]);
      }
    }
    assert kept[..end] + kept[end..] == kept;
    UniqueInsert(kept[..end], rows, kept[end..]);
  }

  /** A move conserves every row's id, matcher type and value. */
  lemma {:induction false} MoveConserves(rules: seq<Rule>, wanted: seq<Id>, rs: Id, name: string, target: Target)
    requires UniqueIds(rules) && Movable(rules, wanted, rs)
    ensures Identities(MoveRows(rules, wanted, rs, name, target)) == Identities(rules)
  {
    var out := MoveRows(rules, wanted, rs, name, target);
    MoveUnique(rules, wanted, rs, name, target);
    forall x ensures HasIdentity(out, x) <==> HasIdentity(rules, x) {
      MovedIdentity(rules, wanted, rs, name, target, x);
    }
    SameIdentities(out, rules);
  }

  lemma {:induction false} MovedIdentity(rules: seq<Rule>, wanted: seq<Id>, rs: Id, name: string, target: Target,
                                         x: (Id, Matcher))
    requires UniqueIds(rules) && Movable(rules, wanted, rs)
    ensures HasIdentity(MoveRows(rules, wanted, rs, name, target), x) <==> HasIdentity(rules, x)
  {
    if HasIdentity(rules, x) {
      var i :| 0 <= i < |rules| && rules[i].id == x.0 && rules[i].matcher == x.1;
      IdentityKept(rules, wanted, rs, name, target, i);
    }
    var out := MoveRows(rules, wanted, rs, name, target);
    if HasIdentity(out, x) {
      var i :| 0 <= i < |out| && out[i].id == x.0 && out[i].matcher == x.1;
      var r := IdentityFrom(rules, wanted, rs, name, target, i);
      var j :| 0 <= j < |rules| && rules[j] == r;
    }
  }

  lemma {:induction false} InsertedHas(kept: seq<Rule>, end: nat, rows: seq<Rule>, r: Rule)
    requires end <= |kept| && (r in kept || r in rows)
    ensures HasIdentity(kept[..end] + rows + kept[end..], (r.id, r.matcher))
  {
    var out := kept[..end] + rows + kept[end..];
    if r in rows {
      var j :| 0 <= j < |rows| && rows[j] == r;
      assert out[end + j] == r;
    } else {
      var m :| 0 <= m < |kept| && kept[m] == r;
      assert out[if m < end then m else m + |rows|] == r;
    }
  }

  lemma {:induction false} IdentityKept(rules: seq<Rule>, wanted: seq<Id>, rs: Id, name: string, target: Target, i: nat)
    requires UniqueIds(rules) && Movable(rules, wanted, rs) && i < |rules|
    ensures HasIdentity(MoveRows(rules, wanted, rs, name, target), (rules[i].id, rules[i].matcher))
  {
    var kept := WithoutIds(rules, SetOf(wanted));
    var rows := MovedRows(rules, wanted, rs, name, target);
    var end := EndOf(kept, rs);
    var out := MoveRows(rules, wanted, rs, name, target);
    UniqueRow(rules, rules[i]);
    if rules[i].id in wanted {
      var j :| 0 <= j < |wanted| && wanted[j] == rules[i].id;
      InsertedHas(kept, end, rows, rows[j]);
    } else {
      FilterMembers(NotNamed(SetOf(wanted)), rules, rules[i]);
      InsertedHas(kept, end, rows, rules[i]);
    }
  }

  lemma {:induction false} IdentityFrom(rules: seq<Rule>, wanted: seq<Id>, rs: Id, name: string, target: Target, i: nat)
    returns (r: Rule)
    requires Movable(rules, wanted, rs) && i < |MoveRows(rules, wanted, rs, name, target)|
    ensures r in rules
    ensures var s := MoveRows(rules, wanted, rs, name, target)[i]; s.id == r.id && s.matcher == r.matcher
  {
    var kept := WithoutIds(rules, SetOf(wanted));
    var rows := MovedRows(rules, wanted, rs, name, target);
    var end := EndOf(kept, rs);
    if end <= i < end + |rows| {
      r := RowById(rules, wanted[i - end]);
      assert MoveRows(rules, wanted, rs, name, target)[i] == rows[i - end];
    } else {
      r := kept[if i < end then i else i - |rows|];
      assert MoveRows(rules, wanted, rs, name, target)[i] == r;
      FilterMembers(NotNamed(SetOf(wanted)), rules, r);
    }
  }
}
