/** What a revision protects: which writes make a client's revision stale, and which never do. */
module Revisions {
  import opened Common
  import opened Routes
  import opened State
  import opened RulesetOps
  import opened RulesetMoves
  import opened RulesetOrder
  import opened Setup
  import opened Operations
  import opened Reachable

  /** A write that expects a revision goes through only onto the content that was read. */
  lemma {:induction false} StaleWritesAreRefused(s: State, rs: Id, name: string, target: Target, matchers: seq<Matcher>,
                                                 read: RulesetBlock)
    requires UpdateRuleset(s, rs, name, target, matchers, Some(read)).Ok?
    ensures Grouped(s.rules) && HasBlock(Runs(s.rules), rs) && BlockById(Runs(s.rules), rs) == read
  {
  }

  /** Heartbeats and recovery never make a channel's revision stale: probe and reconnect records are not part of it. */
  lemma {:induction false} HeartbeatsKeepRevisions(s: State, ref: Ref, note: Note, a: Ref)
    requires note.SetProbe? || note.SetReconnect? || (note.FinishAttempt? && note.newKeys.None?)
    requires WriteNote(s, ref, note, None).Ok?
    ensures ChannelRevision(WriteNote(s, ref, note, None).value.channels, a) == ChannelRevision(s.channels, a)
  {
  }

  // ---- blocks under a reorder ----

  lemma {:induction false} BlockByIdIs(blocks: seq<RulesetBlock>, b: RulesetBlock)
    requires WellBlocked(blocks) && b in blocks
    ensures HasBlock(blocks, b.id) && BlockById(blocks, b.id) == b
  {
    var i :| 0 <= i < |blocks| && blocks[i] == b;
    var found := BlockById(blocks, b.id);
    var j :| 0 <= j < |blocks| && blocks[j] == found;
    assert blocks[i].id == blocks[j].id;
    assert i == j;
  }

  /** Reordering rulesets leaves every ruleset's revision as it was. */
  lemma {:induction false} ReorderKeepsRulesetRevisions(s: State, ids: seq<Id>, known: Option<seq<Id>>, rs: Id)
    requires Inv(s) && ReorderRulesets(s, ids, known).Ok?
    ensures Grouped(ReorderRulesets(s, ids, known).value.rules)
    ensures RulesetRevision(ReorderRulesets(s, ids, known).value.rules, rs) == RulesetRevision(s.rules, rs)
  {
    var blocks := Runs(s.rules);
    PermutationNamesBlocks(blocks, ids);
    ReorderRulesetsConserves(s.rules, ids);
    RunsWellBlocked(s.rules);
    PermutedBlocksAreFound(blocks, ids, rs);
  }

  lemma {:induction false} PermutedBlocksAreFound(blocks: seq<RulesetBlock>, ids: seq<Id>, rs: Id)
    requires WellBlocked(blocks) && FullPermutation(BlockIds(blocks), ids)
    requires forall i :: 0 <= i < |ids| ==> HasBlock(blocks, ids[i])
    ensures var permuted := PermuteBlocks(blocks, ids);
            && (HasBlock(permuted, rs) <==> HasBlock(blocks, rs))
            && (HasBlock(blocks, rs) ==> BlockById(permuted, rs) == BlockById(blocks, rs))
  {
    var permuted := PermuteBlocks(blocks, ids);
    PermutedWellBlocked(blocks, ids);
    if HasBlock(blocks, rs) {
      var b := BlockById(blocks, rs);
      PermutedMember(blocks, ids, b);
      BlockByIdIs(permuted, b);
    }
    if HasBlock(permuted, rs) {
      var i :| 0 <= i < |permuted| && permuted[i].id == rs;
      BlockByIdIs(blocks, permuted[i]);
    }
  }

  // ---- the order of blocks under edits inside them ----

  function ExtendOrder(ids: seq<Id>, id: Id): seq<Id> {
    if ids != [] && ids[|ids| - 1] == id then ids else ids + [id]
  }

  lemma {:induction false} ExtendKeepsOrder(blocks: seq<RulesetBlock>, r: Rule)
    ensures BlockIds(Extend(blocks, r)) == ExtendOrder(BlockIds(blocks), r.ruleset)
  {
  }

  lemma {:induction false} SameRulesetsSameOrder(a: seq<Rule>, b: seq<Rule>)
    requires |a| == |b| && forall i :: 0 <= i < |a| ==> a[i].ruleset == b[i].ruleset
    ensures BlockIds(Runs(a)) == BlockIds(Runs(b))
  {
    if a != [] {
      var n := |a| - 1;
      SameRulesetsSameOrder(a[..n], b[..n]);
      ExtendKeepsOrder(Runs(a[..n]), a[n]);
      ExtendKeepsOrder(Runs(b[..n]), b[n]);
    }
  }

  lemma {:induction false} SameIdsAt(bs: seq<RulesetBlock>, k: nat, b: RulesetBlock)
    requires k < |bs| && b.id == bs[k].id
    ensures BlockIds(bs[k := b]) == BlockIds(bs)
  {
  }

  lemma {:induction false} AddKeepsOrder(rules: seq<Rule>, rs: Id, matchers: seq<Matcher>)
    requires Grouped(rules) && HasBlock(Runs(rules), rs) && BlockById(Runs(rules), rs).rules != []
    ensures var b := BlockById(Runs(rules), rs);
            BlockIds(Runs(AddRows(rules, rs, b.Target(), b.Name(), matchers))) == BlockIds(Runs(rules))
  {
    var b := BlockById(Runs(rules), rs);
    var k :| 0 <= k < |Runs(rules)| && Runs(rules)[k] == b;
    AddExtendsBlock(rules, k, matchers);
    SameIdsAt(Runs(rules), k,
              RulesetBlock(b.id, b.rules + NewRows(MaxRule(rules), matchers, b.Target(), b.id, b.Name(), false)));
  }

  lemma {:induction false} UpdateKeepsOrder(rules: seq<Rule>, rs: Id, name: string, target: Target,
                                            matchers: seq<Matcher>)
    requires Grouped(rules) && HasRuleset(rules, rs) && matchers != []
    ensures BlockIds(Runs(UpdateRows(rules, rs, name, target, matchers))) == BlockIds(Runs(rules))
  {
    var k := BlockOf(rules, rs);
    UpdateKeepsPosition(rules, k, name, target, matchers);
    SameIdsAt(Runs(rules), k, UpdatedBlock(rules, rs, name, target, matchers));
  }

  lemma {:induction false} AddMatchersKeepsOrder(s: State, rs: Id, matchers: seq<Matcher>)
    requires AddMatchers(s, rs, matchers).Ok?
    ensures BlockIds(Runs(AddMatchers(s, rs, matchers).value.rules)) == BlockIds(Runs(s.rules))
  {
    FlattenRuns(s.rules);
    AddKeepsOrder(s.rules, rs, matchers);
  }

  lemma {:induction false} RenameKeepsOrder(rules: seq<Rule>, rs: Id, name: string)
    ensures BlockIds(Runs(RenameRows(rules, rs, name))) == BlockIds(Runs(rules))
  {
    SameRulesetsSameOrder(RenameRows(rules, rs, name), rules);
  }

  lemma {:induction false} RetargetKeepsOrder(rules: seq<Rule>, rs: Id, target: Target)
    ensures BlockIds(Runs(RetargetRows(rules, rs, target))) == BlockIds(Runs(rules))
  {
    SameRulesetsSameOrder(RetargetRows(rules, rs, target), rules);
  }

  lemma {:induction false} RenameRulesetKeepsOrder(s: State, rs: Id, name: string)
    requires RenameRuleset(s, rs, name).Ok?
    ensures BlockIds(Runs(RenameRuleset(s, rs, name).value.rules)) == BlockIds(Runs(s.rules))
  {
    RenameKeepsOrder(s.rules, rs, name);
  }

  lemma {:induction false} RetargetRulesetKeepsOrder(s: State, rs: Id, target: Target)
    requires RetargetRuleset(s, rs, target).Ok?
    ensures BlockIds(Runs(RetargetRuleset(s, rs, target).value.rules)) == BlockIds(Runs(s.rules))
  {
    RetargetKeepsOrder(s.rules, rs, target);
  }

  lemma {:induction false} UpdateRulesetKeepsOrder(s: State, rs: Id, name: string, target: Target,
                                                   matchers: seq<Matcher>, expected: Option<RulesetBlock>)
    requires UpdateRuleset(s, rs, name, target, matchers, expected).Ok?
    ensures BlockIds(Runs(UpdateRuleset(s, rs, name, target, matchers, expected).value.rules))
            == BlockIds(Runs(s.rules))
  {
    UpdateKeepsOrder(s.rules, rs, name, target, matchers);
  }

  /** The edits that stay inside one ruleset. */
  predicate InsideEdit(e: RuleEdit) {
    e.Add? || e.Rename? || e.Retarget? || e.Update?
  }

  /** An edit inside a ruleset never makes the revision of the ruleset order stale. */
  lemma {:induction false} InsideEditsKeepOrder(s: State, e: RuleEdit)
    requires InsideEdit(e) && EditRules(s, e).Ok?
    ensures BlockIds(Runs(EditRules(s, e).value.rules)) == BlockIds(Runs(s.rules))
  {
    match e
    case Add(rs, matchers) => AddMatchersKeepsOrder(s, rs, matchers);
    case Rename(rs, name) => RenameRulesetKeepsOrder(s, rs, name);
    case Retarget(rs, target) => RetargetRulesetKeepsOrder(s, rs, target);
    case Update(rs, name, target, matchers, expected) => UpdateRulesetKeepsOrder(s, rs, name, target, matchers,
          expected);
  }
}
