/** Step by step through a convergence: what each pass over the blocks and entries leaves alone, which ids it can mint,
    which targets it still has to check, and why a quiet report means a complete bundle. */
module SyncRulesFrame {
  import opened Common
  import opened Routes
  import opened State
  import opened RulesetOps
  import opened Setup
  import opened SyncRules

  // ---- a quiet report means a complete bundle ----

  lemma {:induction false} NthManaged(bs: seq<RulesetBlock>, x: string, k: nat, n: nat) returns (j: nat)
    requires NonEmptyBlocks(bs) && n <= |bs| && k < ManagedNamed(bs, x, n)
    ensures j < n && bs[j].AnyManaged() && bs[j].Name() == x && ManagedNamed(bs, x, j) == k
  {
    if bs[n - 1].AnyManaged() && bs[n - 1].Name() == x && ManagedNamed(bs, x, n - 1) == k {
      j := n - 1;
    } else {
      j := NthManaged(bs, x, k, n - 1);
    }
  }

  lemma {:induction false} QuietBlocks(bs: seq<RulesetBlock>, ds: seq<RulesetSpec>, start: Build, n: nat, j: nat)
    requires NonEmptyBlocks(bs) && j < n <= |bs| && Quiet(BlocksPass(bs, ds, start, n))
    ensures MatchOf(bs, ds, j).Some? ==> Identical(bs[j], ds[MatchOf(bs, ds, j).value])
    ensures bs[j].AnyManaged() ==> MatchOf(bs, ds, j).Some?
  {
    if j < n - 1 {
      QuietBlocks(bs, ds, start, n - 1, j);
    }
  }

  lemma {:induction false} QuietSpecs(bs: seq<RulesetBlock>, ds: seq<RulesetSpec>, start: Build, n: nat)
    requires NonEmptyBlocks(bs) && n <= |ds| && Quiet(SpecsPass(bs, ds, start, n))
    ensures Quiet(start) && forall i :: 0 <= i < n ==> Claimed(bs, ds, i)
  {
    if n != 0 {
      QuietSpecs(bs, ds, start, n - 1);
    }
  }

  /** A sync that reports no ruleset updated, pruned or added met only entries with a name and matchers. */
  lemma {:induction false} QuietMeansComplete(bs: seq<RulesetBlock>, ds: seq<RulesetSpec>, m: nat, n: nat)
    requires NonEmptyBlocks(bs) && Quiet(Converge(bs, ds, m, n))
    ensures AllComplete(ds)
  {
    QuietSpecs(bs, ds, BlocksPass(bs, ds, StartBuild(m, n), |bs|), |ds|);
    forall i | 0 <= i < |ds| ensures Complete(ds[i]) {
      assert Claimed(bs, ds, i);
      var j := NthManaged(bs, ds[i].name, SpecsNamed(ds, ds[i].name, i), |bs|);
      NthSpecAt(ds, i, |ds|);
      assert MatchOf(bs, ds, j) == Some(i);
      QuietBlocks(bs, ds, StartBuild(m, n), |bs|, j);
    }
  }

  // ---- hand-made rulesets ----

  /** The blocks among the first `n` without a managed row, in order. */
  function HandMadeUpTo(bs: seq<RulesetBlock>, n: nat): seq<RulesetBlock>
    requires n <= |bs|
  {
    if n == 0 then [] else HandMadeUpTo(bs, n - 1) + (if bs[n - 1].AnyManaged() then [] else [bs[n - 1]])
  }

  function HandMade(bs: seq<RulesetBlock>): seq<RulesetBlock> {
    HandMadeUpTo(bs, |bs|)
  }

  lemma {:induction false} HandMadePrefix(bs: seq<RulesetBlock>, b: RulesetBlock, n: nat)
    requires n <= |bs|
    ensures HandMadeUpTo(bs + [b], n) == HandMadeUpTo(bs, n)
  {
    if n != 0 {
      HandMadePrefix(bs, b, n - 1);
    }
  }

  lemma {:induction false} HandMadeAppend(bs: seq<RulesetBlock>, b: RulesetBlock)
    ensures HandMade(bs + [b]) == HandMade(bs) + (if b.AnyManaged() then [] else [b])
  {
    HandMadePrefix(bs, b, |bs|);
  }

  lemma {:induction false} WrittenIsManaged(bs: seq<RulesetBlock>, base: nat, d: RulesetSpec, rs: Id)
    ensures HandMade(WithBlock(bs, RulesetBlock(rs, NewRows(base, d.matchers, d.target, rs, d.name, true))))
            == HandMade(bs)
  {
    var b := RulesetBlock(rs, NewRows(base, d.matchers, d.target, rs, d.name, true));
    if b.rules != [] {
      assert b.rules[0].managed;
      HandMadeAppend(bs, b);
    }
  }

  lemma {:induction false} BlockStepHandMade(bs: seq<RulesetBlock>, ds: seq<RulesetSpec>, b: Build, j: nat)
    requires NonEmptyBlocks(bs) && j < |bs|
    ensures HandMade(BlockStep(bs, ds, b, j).blocks)
            == HandMade(b.blocks) + (if bs[j].AnyManaged() then [] else [bs[j]])
  {
    var r := MatchOf(bs, ds, j);
    if r.Some? && !Identical(bs[j], ds[r.value]) {
      WrittenIsManaged(b.blocks, b.maxRule, ds[r.value], bs[j].id);
    } else {
      HandMadeAppend(b.blocks, bs[j]);
    }
  }

  lemma {:induction false} BlocksPassKeepsHandMade(bs: seq<RulesetBlock>, ds: seq<RulesetSpec>, start: Build, n: nat)
    requires NonEmptyBlocks(bs) && n <= |bs| && start.blocks == []
    ensures HandMade(BlocksPass(bs, ds, start, n).blocks) == HandMadeUpTo(bs, n)
  {
    if n != 0 {
      BlocksPassKeepsHandMade(bs, ds, start, n - 1);
      BlockStepHandMade(bs, ds, BlocksPass(bs, ds, start, n - 1), n - 1);
    }
  }

  lemma {:induction false} SpecsPassKeepsHandMade(bs: seq<RulesetBlock>, ds: seq<RulesetSpec>, start: Build, n: nat)
    requires NonEmptyBlocks(bs) && n <= |ds|
    ensures HandMade(SpecsPass(bs, ds, start, n).blocks) == HandMade(start.blocks)
  {
    if n != 0 {
      SpecsPassKeepsHandMade(bs, ds, start, n - 1);
      var b := SpecsPass(bs, ds, start, n - 1);
      WrittenIsManaged(b.blocks, b.maxRule, ds[n - 1], Minted(b.maxRuleset + 1));
    }
  }

  // ---- the invariants of the built list ----

  /** Ids come from the original rows or are minted above the original maximum. */
  ghost predicate RowsFrom(old_: seq<Rule>, base: nat, b: Build) {
    && base <= b.maxRule
    && UniqueIds(Flatten(b.blocks))
    && forall i :: 0 <= i < |Flatten(b.blocks)| ==>
         HasId(old_, Flatten(b.blocks)[i].id) || MintedIn(Flatten(b.blocks)[i].id, base, b.maxRule)
  }

  predicate MintedIn(id: Id, lo: nat, hi: nat) {
    id.Minted? && lo < id.n <= hi
  }

  lemma {:induction false} RowsFromWrite(old_: seq<Rule>, base: nat, b: Build, d: RulesetSpec, rs: Id)
    requires RowsFrom(old_, base, b) && forall i :: 0 <= i < |old_| ==> Num(old_[i].id) <= base
    ensures RowsFrom(old_, base, WriteSpec(b, d, rs))
  {
    var rows := NewRows(b.maxRule, d.matchers, d.target, rs, d.name, true);
    var all := Flatten(b.blocks);
    FlattenAppend(b.blocks, RulesetBlock(rs, rows));
    if rows != [] {
      forall i | 0 <= i < |rows| ensures !HasId(all, rows[i].id) {
        forall k | 0 <= k < |all| ensures all[k].id != rows[i].id {
          if HasId(old_, all[k].id) {
            var m :| 0 <= m < |old_| && old_[m].id == all[k].id;
          }
        }
      }
      UniqueConcat(all, rows);
    }
  }

  lemma {:induction false} RowsFromKeep(old_: seq<Rule>, base: nat, b: Build, block: RulesetBlock)
    requires RowsFrom(old_, base, b) && UniqueIds(old_ + block.rules)
    requires forall i :: 0 <= i < |block.rules| ==> Num(block.rules[i].id) <= base
    ensures RowsFrom(old_ + block.rules, base, b.(blocks := b.blocks + [block]))
  {
    var all := Flatten(b.blocks);
    FlattenAppend(b.blocks, block);
    forall i | 0 <= i < |block.rules| ensures !HasId(all, block.rules[i].id) {
      forall k | 0 <= k < |all| ensures all[k].id != block.rules[i].id {
        if HasId(old_, all[k].id) {
          var m :| 0 <= m < |old_| && old_[m].id == all[k].id;
          assert (old_ + block.rules)[m].id != (old_ + block.rules)[|old_| + i].id;
        }
      }
    }
    forall i, j | 0 <= i < j < |block.rules| ensures block.rules[i].id != block.rules[j].id {
      assert (old_ + block.rules)[|old_| + i].id != (old_ + block.rules)[|old_| + j].id;
    }
    UniqueConcat(all, block.rules);
    forall k | 0 <= k < |all + block.rules|
      ensures HasId(old_ + block.rules, (all + block.rules)[k].id)
              || MintedIn((all + block.rules)[k].id, base, b.maxRule)
    {
      if k < |all| {
        if HasId(old_, all[k].id) {
          HasIdGrows(old_, block.rules, all[k].id);
        }
      } else {
        assert (old_ + block.rules)[|old_| + (k - |all|)].id == (all + block.rules)[k].id;
      }
    }
  }

  lemma {:induction false} HasIdGrows(a: seq<Rule>, b: seq<Rule>, id: Id)
    requires HasId(a, id)
    ensures HasId(a + b, id)
  {
    var i :| 0 <= i < |a| && a[i].id == id;
    assert (a + b)[i].id == id;
  }

  lemma {:induction false} RowsFromSkip(old_: seq<Rule>, more: seq<Rule>, base: nat, b: Build)
    requires RowsFrom(old_, base, b)
    ensures RowsFrom(old_ + more, base, b)
  {
    forall i | 0 <= i < |Flatten(b.blocks)|
      ensures HasId(old_ + more, Flatten(b.blocks)[i].id) || MintedIn(Flatten(b.blocks)[i].id, base, b.maxRule)
    {
      if HasId(old_, Flatten(b.blocks)[i].id) {
        HasIdGrows(old_, more, Flatten(b.blocks)[i].id);
      }
    }
  }

  lemma {:induction false} BlocksPassRows(bs: seq<RulesetBlock>, ds: seq<RulesetSpec>, base: nat, rs: nat, n: nat)
    requires NonEmptyBlocks(bs) && n <= |bs| && UniqueIds(Flatten(bs[..n]))
    requires forall i :: 0 <= i < |Flatten(bs[..n])| ==> Num(Flatten(bs[..n])[i].id) <= base
    ensures RowsFrom(Flatten(bs[..n]), base, BlocksPass(bs, ds, StartBuild(base, rs), n))
  {
    if n != 0 {
      var old_, rows := Flatten(bs[..n - 1]), bs[n - 1].rules;
      assert bs[..n] == bs[..n - 1] + [bs[n - 1]];
      FlattenAppend(bs[..n - 1], bs[n - 1]);
      assert Flatten(bs[..n]) == old_ + rows;
      forall i | 0 <= i < |old_| ensures old_[i] == Flatten(bs[..n])[i] {}
      BlocksPassRows(bs, ds, base, rs, n - 1);
      forall i | 0 <= i < |rows| ensures Num(rows[i].id) <= base {
        assert Flatten(bs[..n])[|old_| + i] == rows[i];
      }
      BlockStepRows(old_, bs, ds, base, BlocksPass(bs, ds, StartBuild(base, rs), n - 1), n - 1);
    }
  }

  lemma {:induction false} BlockStepRows(old_: seq<Rule>, bs: seq<RulesetBlock>, ds: seq<RulesetSpec>, base: nat,
                                         b: Build, j: nat)
    requires NonEmptyBlocks(bs) && j < |bs| && RowsFrom(old_, base, b) && UniqueIds(old_ + bs[j].rules)
    requires forall i :: 0 <= i < |old_| ==> Num(old_[i].id) <= base
    requires forall i :: 0 <= i < |bs[j].rules| ==> Num(bs[j].rules[i].id) <= base
    ensures RowsFrom(old_ + bs[j].rules, base, BlockStep(bs, ds, b, j))
  {
    var r := MatchOf(bs, ds, j);
    if r.Some? && !Identical(bs[j], ds[r.value]) {
      RowsFromSkip(old_, bs[j].rules, base, b);
      RowsFromWrite(old_ + bs[j].rules, base, b, ds[r.value], bs[j].id);
    } else if r.None? && bs[j].AnyManaged() {
      RowsFromSkip(old_, bs[j].rules, base, b);
    } else {
      RowsFromKeep(old_, base, b, bs[j]);
    }
  }

  lemma {:induction false} SpecsPassRows(old_: seq<Rule>, bs: seq<RulesetBlock>, ds: seq<RulesetSpec>, base: nat,
                                         start: Build, n: nat)
    requires NonEmptyBlocks(bs) && n <= |ds| && RowsFrom(old_, base, start)
    requires forall i :: 0 <= i < |old_| ==> Num(old_[i].id) <= base
    ensures RowsFrom(old_, base, SpecsPass(bs, ds, start, n))
  {
    if n != 0 {
      SpecsPassRows(old_, bs, ds, base, start, n - 1);
      var b := SpecsPass(bs, ds, start, n - 1);
      RowsFromWrite(old_, base, b.(maxRuleset := b.maxRuleset + 1), ds[n - 1], Minted(b.maxRuleset + 1));
    }
  }

  // ---- block ids and targets of the built list ----

  /** The built blocks are well formed; their ids come from the first `n` blocks or are newly minted. */
  ghost predicate BlocksFrom(bs: seq<RulesetBlock>, n: nat, base: nat, b: Build)
    requires n <= |bs|
  {
    && WellBlocked(b.blocks) && base <= b.maxRuleset
    && forall i :: 0 <= i < |b.blocks| ==>
         (exists j :: 0 <= j < n && bs[j].id == b.blocks[i].id) || MintedIn(b.blocks[i].id, base, b.maxRuleset)
  }

  lemma {:induction false} BlocksFromAppend(bs: seq<RulesetBlock>, n: nat, base: nat, b: Build, block: RulesetBlock)
    requires WellBlocked(bs) && n < |bs| && BlocksFrom(bs, n, base, b) && block.Uniform() && block.id == bs[n].id
    requires forall i :: 0 <= i < |bs| ==> Num(bs[i].id) <= base
    ensures BlocksFrom(bs, n + 1, base, b.(blocks := b.blocks + [block]))
  {
    var out := b.blocks + [block];
    forall i | 0 <= i < |b.blocks| ensures b.blocks[i].id != block.id {
      if j :| 0 <= j < n && bs[j].id == b.blocks[i].id {
        assert bs[j].id != bs[n].id;
      }
    }
  }

  lemma {:induction false} BlocksFromWiden(bs: seq<RulesetBlock>, n: nat, base: nat, b: Build)
    requires n < |bs| && BlocksFrom(bs, n, base, b)
    ensures BlocksFrom(bs, n + 1, base, b)
  {
  }

  lemma {:induction false} WrittenIsUniform(base: nat, d: RulesetSpec, rs: Id)
    ensures var b := RulesetBlock(rs, NewRows(base, d.matchers, d.target, rs, d.name, true));
            b.rules != [] ==> b.Uniform()
  {
  }

  lemma {:induction false} BlocksPassBlocks(bs: seq<RulesetBlock>, ds: seq<RulesetSpec>, m: nat, base: nat, n: nat)
    requires WellBlocked(bs) && NonEmptyBlocks(bs) && n <= |bs|
    requires forall i :: 0 <= i < |bs| ==> Num(bs[i].id) <= base
    ensures BlocksFrom(bs, n, base, BlocksPass(bs, ds, StartBuild(m, base), n))
  {
    if n == 0 {
      NoBlocksYet(bs, m, base);
    } else {
      var j: nat := n - 1;
      assert j + 1 == n;
      BlocksPassBlocks(bs, ds, m, base, j);
      BlocksPassGrows(bs, ds, base, StartBuild(m, base), j);
    }
  }

  lemma {:induction false} PassIsSteps(bs: seq<RulesetBlock>, ds: seq<RulesetSpec>, start: Build, j: nat)
    requires NonEmptyBlocks(bs) && j < |bs|
    ensures BlocksPass(bs, ds, start, j + 1) == BlockStep(bs, ds, BlocksPass(bs, ds, start, j), j)
  {
  }

  lemma {:induction false} BlocksPassGrows(bs: seq<RulesetBlock>, ds: seq<RulesetSpec>, base: nat, start: Build, j: nat)
    requires WellBlocked(bs) && NonEmptyBlocks(bs) && j < |bs|
    requires forall i :: 0 <= i < |bs| ==> Num(bs[i].id) <= base
    requires BlocksFrom(bs, j, base, BlocksPass(bs, ds, start, j))
    ensures BlocksFrom(bs, j + 1, base, BlocksPass(bs, ds, start, j + 1))
  {
    PassIsSteps(bs, ds, start, j);
    BlockStepBlocks(bs, ds, base, BlocksPass(bs, ds, start, j), j);
  }

  lemma {:induction false} NoBlocksYet(bs: seq<RulesetBlock>, m: nat, base: nat)
    ensures BlocksFrom(bs, 0, base, StartBuild(m, base))
  {
  }

  lemma {:induction false} BlockStepBlocks(bs: seq<RulesetBlock>, ds: seq<RulesetSpec>, base: nat, b: Build, j: nat)
    requires WellBlocked(bs) && NonEmptyBlocks(bs) && j < |bs| && BlocksFrom(bs, j, base, b)
    requires forall i :: 0 <= i < |bs| ==> Num(bs[i].id) <= base
    ensures BlocksFrom(bs, j + 1, base, BlockStep(bs, ds, b, j))
  {
    var r := MatchOf(bs, ds, j);
    if r.Some? && !Identical(bs[j], ds[r.value]) {
      if ds[r.value].matchers != [] {
        var d := ds[r.value];
        WrittenIsUniform(b.maxRule, d, bs[j].id);
        BlocksFromAppend(bs, j, base, b,
                         RulesetBlock(bs[j].id, NewRows(b.maxRule, d.matchers, d.target, bs[j].id, d.name, true)));
      } else {
        BlocksFromWiden(bs, j, base, b);
      }
    } else if r.None? && bs[j].AnyManaged() {
      BlocksFromWiden(bs, j, base, b);
    } else {
      BlocksFromAppend(bs, j, base, b, bs[j]);
    }
  }

  lemma {:induction false} SpecsPassBlocks(bs: seq<RulesetBlock>, ds: seq<RulesetSpec>, base: nat, start: Build, n: nat)
    requires NonEmptyBlocks(bs) && n <= |ds| && BlocksFrom(bs, |bs|, base, start)
    requires forall i :: 0 <= i < |bs| ==> Num(bs[i].id) <= base
    ensures BlocksFrom(bs, |bs|, base, SpecsPass(bs, ds, start, n))
  {
    if n != 0 {
      SpecsPassBlocks(bs, ds, base, start, n - 1);
      var b := SpecsPass(bs, ds, start, n - 1);
      WrittenIsUniform(b.maxRule, ds[n - 1], Minted(b.maxRuleset + 1));
      forall i | 0 <= i < |b.blocks| ensures b.blocks[i].id != Minted(b.maxRuleset + 1) {
        if j :| 0 <= j < |bs| && bs[j].id == b.blocks[i].id {
          assert Num(bs[j].id) <= base;
        }
      }
    }
  }

  /** A built block is a block that was there, or all its rows carry a target still to be checked. */
  ghost predicate TargetsKnown(bs: seq<RulesetBlock>, b: Build) {
    forall i :: 0 <= i < |b.blocks| ==> b.blocks[i] in bs || BlockPending(b.blocks[i], b.pending)
  }

  ghost predicate BlockPending(block: RulesetBlock, pending: seq<Target>) {
    forall k :: 0 <= k < |block.rules| ==> block.rules[k].target in pending
  }

  lemma {:induction false} WriteKnown(bs: seq<RulesetBlock>, b: Build, d: RulesetSpec, rs: Id)
    requires TargetsKnown(bs, b)
    ensures TargetsKnown(bs, WriteSpec(b, d, rs))
  {
    var out := WriteSpec(b, d, rs);
    forall i | 0 <= i < |out.blocks| ensures out.blocks[i] in bs || BlockPending(out.blocks[i], out.pending) {
      if i < |b.blocks| {
        if BlockPending(b.blocks[i], b.pending) {
          assert BlockPending(out.blocks[i], out.pending);
        }
      } else {
        assert BlockPending(out.blocks[i], out.pending);
      }
    }
  }

  lemma {:induction false} BlocksPassKnown(bs: seq<RulesetBlock>, ds: seq<RulesetSpec>, start: Build, n: nat)
    requires NonEmptyBlocks(bs) && n <= |bs| && TargetsKnown(bs, start)
    ensures TargetsKnown(bs, BlocksPass(bs, ds, start, n))
  {
    if n != 0 {
      BlocksPassKnown(bs, ds, start, n - 1);
      var b := BlocksPass(bs, ds, start, n - 1);
      var r := MatchOf(bs, ds, n - 1);
      if r.Some? {
        WriteKnown(bs, b, ds[r.value], bs[n - 1].id);
      }
    }
  }

  lemma {:induction false} ConvergeKnown(bs: seq<RulesetBlock>, ds: seq<RulesetSpec>, m: nat, base: nat, n: nat)
    requires NonEmptyBlocks(bs) && n <= |ds|
    ensures TargetsKnown(bs, SpecsPass(bs, ds, BlocksPass(bs, ds, StartBuild(m, base), |bs|), n))
  {
    if n == 0 {
      BlocksPassKnown(bs, ds, StartBuild(m, base), |bs|);
    } else {
      ConvergeKnown(bs, ds, m, base, n - 1);
      var b := SpecsPass(bs, ds, BlocksPass(bs, ds, StartBuild(m, base), |bs|), n - 1);
      WriteKnown(bs, b.(maxRuleset := b.maxRuleset + 1), ds[n - 1], Minted(b.maxRuleset + 1));
    }
  }
}
