/** Reordering rules, and whole rulesets, by a full permutation of ids: what is refused, and what every accepted order
    keeps. */
module RulesetOrder {
  import opened Common
  import opened State
  import opened RulesetOps
  import opened RulesetMoves

  // ---- multisets of distinct things ----

  lemma {:induction false} DistinctCount<T>(s: seq<T>, x: T)
    requires forall i, j :: 0 <= i < j < |s| ==> s[i] != s[j]
    ensures multiset(s)[x] == if x in s then 1 else 0
  {
    if s != [] {
      var front, last := s[..|s| - 1], s[|s| - 1];
      assert s == front + [last];
      DistinctCount(front, x);
      if x == last {
        assert x !in front;
      }
    }
  }

  lemma {:induction false} DistinctSameMembers<T>(a: seq<T>, b: seq<T>)
    requires forall i, j :: 0 <= i < j < |a| ==> a[i] != a[j]
    requires forall i, j :: 0 <= i < j < |b| ==> b[i] != b[j]
    requires forall x :: x in a <==> x in b
    ensures multiset(a) == multiset(b)
  {
    forall x | x in multiset(a) + multiset(b) ensures multiset(a)[x] == multiset(b)[x] {
      DistinctCount(a, x);
      DistinctCount(b, x);
    }
  }

  // ---- the permutation check ----

  /** `_check_permutation` passes: no duplicates, nothing unknown, nothing missing. */
  predicate FullPermutation(current: seq<Id>, proposed: seq<Id>) {
    && (forall i, j :: 0 <= i < j < |proposed| ==> proposed[i] != proposed[j])
    && (forall i :: 0 <= i < |proposed| ==> proposed[i] in current)
    && (forall i :: 0 <= i < |current| ==> current[i] in proposed)
  }

  method CheckPermutation(current: seq<Id>, proposed: seq<Id>) returns (ok: bool)
    ensures ok <==> FullPermutation(current, proposed)
  {
    var seen: set<Id> := {};
    var dupes := false;
    for i := 0 to |proposed|
      invariant forall id :: id in seen <==> id in proposed[..i]
      invariant dupes <==> exists a, b :: 0 <= a < b < i && proposed[a] == proposed[b]
    {
      assert proposed[..i + 1] == proposed[..i] + [proposed[i]];
      if proposed[i] in seen {
        var a :| 0 <= a < i && proposed[..i][a] == proposed[i];
        assert proposed[a] == proposed[i];
        dupes := true;
      }
      seen := seen + {proposed[i]};
    }
    assert proposed[..|proposed|] == proposed;
    if dupes {
      return false;
    }
    if exists i :: 0 <= i < |proposed| && proposed[i] !in current {
      return false;
    }
    if exists i :: 0 <= i < |current| && current[i] !in seen {
      return false;
    }
    ok := true;
  }

  // ---- rules ----

  function IdsOf(rules: seq<Rule>): (ids: seq<Id>)
    ensures |ids| == |rules| && forall i :: 0 <= i < |rules| ==> ids[i] == rules[i].id
  {
    seq(|rules|, i requires 0 <= i < |rules| => rules[i].id)
  }

  function RowsById(rules: seq<Rule>, ids: seq<Id>): (out: seq<Rule>)
    requires forall i :: 0 <= i < |ids| ==> HasId(rules, ids[i])
    ensures |out| == |ids| && forall i :: 0 <= i < |ids| ==> out[i] == RowById(rules, ids[i])
  {
    if ids == [] then [] else [RowById(rules, ids[0])] + RowsById(rules, ids[1..])
  }

  lemma {:induction false} PermutationNamesRows(rules: seq<Rule>, proposed: seq<Id>)
    requires FullPermutation(IdsOf(rules), proposed)
    ensures forall i :: 0 <= i < |proposed| ==> HasId(rules, proposed[i])
  {
    forall i | 0 <= i < |proposed| ensures HasId(rules, proposed[i]) {
      assert proposed[i] in IdsOf(rules);
    }
  }

  lemma {:induction false} ReorderedHas(rules: seq<Rule>, proposed: seq<Id>, r: Rule)
    requires UniqueIds(rules) && FullPermutation(IdsOf(rules), proposed) && r in rules
    requires forall i :: 0 <= i < |proposed| ==> HasId(rules, proposed[i])
    ensures r in RowsById(rules, proposed)
  {
    UniqueRow(rules, r);
    var i :| 0 <= i < |rules| && rules[i] == r;
    assert IdsOf(rules)[i] in proposed;
    var j :| 0 <= j < |proposed| && proposed[j] == r.id;
    assert RowsById(rules, proposed)[j] == r;
  }

  /** A full permutation conserves the rows exactly; only their order changes. */
  lemma {:induction false} ReorderConserves(rules: seq<Rule>, proposed: seq<Id>)
    requires UniqueIds(rules) && FullPermutation(IdsOf(rules), proposed)
    requires forall i :: 0 <= i < |proposed| ==> HasId(rules, proposed[i])
    ensures multiset(RowsById(rules, proposed)) == multiset(rules)
    ensures UniqueIds(RowsById(rules, proposed))
  {
    var out := RowsById(rules, proposed);
    forall r | r in rules ensures r in out {
      ReorderedHas(rules, proposed, r);
    }
    DistinctSameMembers(out, rules);
  }

  // ---- rulesets ----

  function BlockIds(blocks: seq<RulesetBlock>): (ids: seq<Id>)
    ensures |ids| == |blocks| && forall i :: 0 <= i < |blocks| ==> ids[i] == blocks[i].id
  {
    seq(|blocks|, i requires 0 <= i < |blocks| => blocks[i].id)
  }

  predicate HasBlock(blocks: seq<RulesetBlock>, id: Id) {
    exists i :: 0 <= i < |blocks| && blocks[i].id == id
  }

  function BlockById(blocks: seq<RulesetBlock>, id: Id): (b: RulesetBlock)
    requires HasBlock(blocks, id)
    ensures b in blocks && b.id == id
  {
    if blocks[0].id == id then blocks[0]
    else
      HasBlockBehind(blocks, id);
      BlockById(blocks[1..], id)
  }

  lemma {:induction false} HasBlockBehind(blocks: seq<RulesetBlock>, id: Id)
    requires HasBlock(blocks, id) && blocks[0].id != id
    ensures HasBlock(blocks[1..], id)
  {
    var i :| 0 <= i < |blocks| && blocks[i].id == id;
    assert blocks[1..][i - 1].id == id;
  }

  function PermuteBlocks(blocks: seq<RulesetBlock>, ids: seq<Id>): (out: seq<RulesetBlock>)
    requires forall i :: 0 <= i < |ids| ==> HasBlock(blocks, ids[i])
    ensures |out| == |ids| && forall i :: 0 <= i < |ids| ==> out[i] in blocks && out[i].id == ids[i]
  {
    if ids == [] then [] else [BlockById(blocks, ids[0])] + PermuteBlocks(blocks, ids[1..])
  }

  lemma {:induction false} PermutationNamesBlocks(blocks: seq<RulesetBlock>, ids: seq<Id>)
    requires FullPermutation(BlockIds(blocks), ids)
    ensures forall i :: 0 <= i < |ids| ==> HasBlock(blocks, ids[i])
  {
    forall i | 0 <= i < |ids| ensures HasBlock(blocks, ids[i]) {
      assert ids[i] in BlockIds(blocks);
      var j :| 0 <= j < |BlockIds(blocks)| && BlockIds(blocks)[j] == ids[i];
      assert blocks[j].id == ids[i];
    }
  }

  lemma {:induction false} PermutedMember(blocks: seq<RulesetBlock>, ids: seq<Id>, b: RulesetBlock)
    requires WellBlocked(blocks) && FullPermutation(BlockIds(blocks), ids) && b in blocks
    requires forall i :: 0 <= i < |ids| ==> HasBlock(blocks, ids[i])
    ensures b in PermuteBlocks(blocks, ids)
  {
    var out := PermuteBlocks(blocks, ids);
    var i :| 0 <= i < |blocks| && blocks[i] == b;
    assert BlockIds(blocks)[i] in ids;
    var j :| 0 <= j < |ids| && ids[j] == b.id;
    var k :| 0 <= k < |blocks| && blocks[k] == out[j];
    assert blocks[k].id == blocks[i].id;
    assert k == i;
  }

  lemma {:induction false} PermutedWellBlocked(blocks: seq<RulesetBlock>, ids: seq<Id>)
    requires WellBlocked(blocks) && FullPermutation(BlockIds(blocks), ids)
    requires forall i :: 0 <= i < |ids| ==> HasBlock(blocks, ids[i])
    ensures WellBlocked(PermuteBlocks(blocks, ids))
  {
    var out := PermuteBlocks(blocks, ids);
    forall i | 0 <= i < |out| ensures out[i].Uniform() {
      var k :| 0 <= k < |blocks| && blocks[k] == out[i];
    }
  }

  lemma {:induction false} PermutedMultiset(blocks: seq<RulesetBlock>, ids: seq<Id>)
    requires WellBlocked(blocks) && FullPermutation(BlockIds(blocks), ids)
    requires forall i :: 0 <= i < |ids| ==> HasBlock(blocks, ids[i])
    ensures multiset(PermuteBlocks(blocks, ids)) == multiset(blocks)
  {
    var out := PermuteBlocks(blocks, ids);
    forall b ensures b in out <==> b in blocks {
      if b in blocks {
        PermutedMember(blocks, ids, b);
      }
    }
    forall i, j | 0 <= i < j < |out| ensures out[i] != out[j] {
      assert out[i].id == ids[i] && out[j].id == ids[j];
    }
    DistinctSameMembers(out, blocks);
  }

  lemma {:induction false} FlattenMultiset(a: seq<RulesetBlock>, b: seq<RulesetBlock>)
    requires multiset(a) == multiset(b)
    ensures multiset(Flatten(a)) == multiset(Flatten(b))
    decreases |a|
  {
    if a == [] {
      assert |multiset(b)| == 0;
    } else {
      var front, last := a[..|a| - 1], a[|a| - 1];
      assert a == front + [last];
      assert last in multiset(b);
      var k :| 0 <= k < |b| && b[k] == last;
      var rest := b[..k] + b[k + 1..];
      assert b == b[..k] + [last] + b[k + 1..];
      assert multiset(rest) == multiset(b) - multiset{last};
      assert multiset(front) == multiset(a) - multiset{last};
      FlattenMultiset(front, rest);
      FlattenAppend(front, last);
      FlattenConcat(b[..k] + [last], b[k + 1..]);
      FlattenAppend(b[..k], last);
      FlattenConcat(b[..k], b[k + 1..]);
    }
  }

  lemma {:induction false} UniqueByMultiset(a: seq<Rule>, b: seq<Rule>)
    requires UniqueIds(a) && multiset(a) == multiset(b)
    ensures UniqueIds(b)
  {
    forall i, j | 0 <= i < j < |b| ensures b[i].id != b[j].id {
      if b[i].id == b[j].id {
        assert b[i] in multiset(a) && b[j] in multiset(a);
        UniqueRow(a, b[i]);
        UniqueRow(a, b[j]);
        DistinctCount(a, b[i]);
        TwiceCounted(b, i, j);
        assert false;
      }
    }
  }

  lemma {:induction false} TwiceCounted(s: seq<Rule>, i: nat, j: nat)
    requires i < j < |s| && s[i] == s[j]
    ensures multiset(s)[s[i]] >= 2
  {
    assert s == s[..i] + [s[i]] + s[i + 1..j] + [s[j]] + s[j + 1..];
  }

  /** Reordering rulesets moves whole blocks: contiguity holds and every row is conserved. */
  lemma {:induction false} ReorderRulesetsConserves(rules: seq<Rule>, ids: seq<Id>)
    requires Grouped(rules) && UniqueIds(rules) && FullPermutation(BlockIds(Runs(rules)), ids)
    requires forall i :: 0 <= i < |ids| ==> HasBlock(Runs(rules), ids[i])
    ensures var out := Flatten(PermuteBlocks(Runs(rules), ids));
            && Grouped(out) && UniqueIds(out) && multiset(out) == multiset(rules)
            && Runs(out) == PermuteBlocks(Runs(rules), ids)
  {
    RunsWellBlocked(rules);
    FlattenRuns(rules);
    PermutedWellBlocked(Runs(rules), ids);
    PermutedMultiset(Runs(rules), ids);
    var bs := PermuteBlocks(Runs(rules), ids);
    FlattenGrouped(bs);
    RunsOfFlatten(bs);
    FlattenMultiset(bs, Runs(rules));
    UniqueByMultiset(rules, Flatten(bs));
  }
}
