/** What converging the managed rulesets on a bundle promises. */
module SyncConvergence {
  import opened Common
  import opened Routes
  import opened State
  import opened RulesetOps
  import opened Setup
  import opened SyncRules
  import opened SyncRulesFrame

  /** Converging twice is converging once: the second pass keeps every block and reports no change. */
  lemma {:induction false} ConvergeIdempotent(bs: seq<RulesetBlock>, ds: seq<RulesetSpec>, m: nat, n: nat, m': nat,
                                              n': nat)
    requires NonEmptyBlocks(bs) && AllComplete(ds)
    ensures var once := Converge(bs, ds, m, n).blocks;
            && NonEmptyBlocks(once)
            && var twice := Converge(once, ds, m', n');
               twice.blocks == once && Quiet(twice) && twice.pending == []
  {
    ConvergedRealizes(bs, ds, m, n);
    var once := Converge(bs, ds, m, n).blocks;
    RealizedPassIsQuiet(once, ds, StartBuild(m', n'), |once|);
    ClaimedPassIsQuiet(once, ds, BlocksPass(once, ds, StartBuild(m', n'), |once|), |ds|);
    assert once[..|once|] == once;
  }

  /** Exactly the complete bundles make a second sync report nothing. */
  lemma {:induction false} SecondSyncQuietIffComplete(bs: seq<RulesetBlock>, ds: seq<RulesetSpec>, m: nat, n: nat,
                                                      m': nat, n': nat)
    requires NonEmptyBlocks(bs) && NonEmptyBlocks(Converge(bs, ds, m, n).blocks)
    ensures Quiet(Converge(Converge(bs, ds, m, n).blocks, ds, m', n')) <==> AllComplete(ds)
  {
    if AllComplete(ds) {
      ConvergeIdempotent(bs, ds, m, n, m', n');
    }
    if Quiet(Converge(Converge(bs, ds, m, n).blocks, ds, m', n')) {
      QuietMeansComplete(Converge(bs, ds, m, n).blocks, ds, m', n');
    }
  }

  /** Rulesets with no managed row keep their rows and their relative order. */
  lemma {:induction false} ConvergeKeepsHandMade(bs: seq<RulesetBlock>, ds: seq<RulesetSpec>, m: nat, n: nat)
    requires NonEmptyBlocks(bs)
    ensures HandMade(Converge(bs, ds, m, n).blocks) == HandMade(bs)
  {
    BlocksPassKeepsHandMade(bs, ds, StartBuild(m, n), |bs|);
    SpecsPassKeepsHandMade(bs, ds, BlocksPass(bs, ds, StartBuild(m, n), |bs|), |ds|);
  }

  /** Converging keeps rule ids unique. */
  lemma {:induction false} ConvergeUnique(bs: seq<RulesetBlock>, ds: seq<RulesetSpec>, n: nat)
    requires NonEmptyBlocks(bs) && UniqueIds(Flatten(bs))
    ensures UniqueIds(Flatten(Converge(bs, ds, MaxRule(Flatten(bs)), n).blocks))
  {
    var old_ := Flatten(bs);
    var base := MaxRule(old_);
    assert bs[..|bs|] == bs;
    forall i | 0 <= i < |old_| ensures Num(old_[i].id) <= base {
      assert old_[i] in old_;
    }
    BlocksPassRows(bs, ds, base, n, |bs|);
    SpecsPassRows(old_, bs, ds, base, BlocksPass(bs, ds, StartBuild(base, n), |bs|), |ds|);
  }

  /** Converging keeps every ruleset contiguous with one target. */
  lemma {:induction false} ConvergeWellBlocked(bs: seq<RulesetBlock>, ds: seq<RulesetSpec>, m: nat, base: nat)
    requires WellBlocked(bs) && NonEmptyBlocks(bs) && forall i :: 0 <= i < |bs| ==> Num(bs[i].id) <= base
    ensures WellBlocked(Converge(bs, ds, m, base).blocks)
  {
    BlocksPassBlocks(bs, ds, m, base, |bs|);
    SpecsPassBlocks(bs, ds, base, BlocksPass(bs, ds, StartBuild(m, base), |bs|), |ds|);
  }
}
