/** Converging the managed ruleset blocks on a bundle's list: matching by name in order, rewriting in place, pruning and
    appending; and the count of blocks and entries by name that makes a second pass find its own work done. */
module SyncRules {
  import opened Common
  import opened Routes
  import opened State
  import opened RulesetOps
  import opened Setup

  // ---- counting blocks and entries by name ----

  /** Managed blocks named `x` among the first `n`. */
  function ManagedNamed(bs: seq<RulesetBlock>, x: string, n: nat): (c: nat)
    requires n <= |bs| && forall i :: 0 <= i < |bs| ==> bs[i].rules != []
    ensures c <= n
  {
    if n == 0 then 0
    else ManagedNamed(bs, x, n - 1) + (if bs[n - 1].AnyManaged() && bs[n - 1].Name() == x then 1 else 0)
  }

  /** Bundle entries named `x` among the first `n`. */
  function SpecsNamed(ds: seq<RulesetSpec>, x: string, n: nat): (c: nat)
    requires n <= |ds|
    ensures c <= n
  {
    if n == 0 then 0 else SpecsNamed(ds, x, n - 1) + (if ds[n - 1].name == x then 1 else 0)
  }

  /** The `k`-th (0-based) of the first `n` bundle entries named `x`. */
  function NthSpec(ds: seq<RulesetSpec>, x: string, k: nat, n: nat): (r: Option<nat>)
    requires n <= |ds|
    ensures r.Some? <==> k < SpecsNamed(ds, x, n)
    ensures r.Some? ==> r.value < n && ds[r.value].name == x && SpecsNamed(ds, x, r.value) == k
  {
    if n == 0 then None
    else
      var before := NthSpec(ds, x, k, n - 1);
      if before.Some? then before
      else if ds[n - 1].name == x && SpecsNamed(ds, x, n - 1) == k then Some(n - 1) else None
  }

  /** The bundle entry a block is matched with: the one of its name with the same ordinal. */
  function MatchOf(bs: seq<RulesetBlock>, ds: seq<RulesetSpec>, j: nat): Option<nat>
    requires j < |bs| && forall i :: 0 <= i < |bs| ==> bs[i].rules != []
  {
    if bs[j].AnyManaged() then NthSpec(ds, bs[j].Name(), ManagedNamed(bs, bs[j].Name(), j), |ds|) else None
  }

  /** Some block is matched with entry `i`. */
  predicate Claimed(bs: seq<RulesetBlock>, ds: seq<RulesetSpec>, i: nat)
    requires i < |ds| && forall j :: 0 <= j < |bs| ==> bs[j].rules != []
  {
    SpecsNamed(ds, ds[i].name, i) < ManagedNamed(bs, ds[i].name, |bs|)
  }

  lemma {:induction false} SpecsNamedMonotone(ds: seq<RulesetSpec>, x: string, m: nat, n: nat)
    requires m <= n <= |ds|
    ensures SpecsNamed(ds, x, m) <= SpecsNamed(ds, x, n)
  {
    if m < n {
      SpecsNamedMonotone(ds, x, m, n - 1);
    }
  }

  /** A block's rows are what the entry asks for: target, matchers in order, all rows managed. */
  predicate Identical(b: RulesetBlock, d: RulesetSpec)
    requires b.rules != []
  {
    && b.Target() == d.target
    && |b.rules| == |d.matchers|
    && (forall i :: 0 <= i < |b.rules| ==> b.rules[i].matcher == d.matchers[i] && b.rules[i].managed)
  }

  // ---- building the new list ----

  /** The blocks kept or written so far, the id counters, and the report. */
  datatype Build = Build(blocks: seq<RulesetBlock>, maxRule: nat, maxRuleset: nat, pending: seq<Target>,
                         kept: seq<string>, updated: seq<string>, pruned: seq<string>, added: seq<string>)

  function WithBlock(bs: seq<RulesetBlock>, b: RulesetBlock): seq<RulesetBlock> {
    if b.rules == [] then bs else bs + [b]
  }

  /** `managed_rows` appended under the ruleset id `rs`. */
  function WriteSpec(b: Build, d: RulesetSpec, rs: Id): Build {
    b.(blocks := WithBlock(b.blocks, RulesetBlock(rs, NewRows(b.maxRule, d.matchers, d.target, rs, d.name, true))),
       maxRule := b.maxRule + |d.matchers|,
       pending := b.pending + [d.target])
  }

  /** One existing block: kept, rewritten in place, pruned, or (not managed) left alone. */
  function BlockStep(bs: seq<RulesetBlock>, ds: seq<RulesetSpec>, b: Build, j: nat): Build
    requires j < |bs| && forall i :: 0 <= i < |bs| ==> bs[i].rules != []
  {
    match MatchOf(bs, ds, j)
    case Some(i) =>
      if Identical(bs[j], ds[i])
      then b.(blocks := b.blocks + [bs[j]], kept := b.kept + [ds[i].name])
      else WriteSpec(b, ds[i], bs[j].id).(updated := b.updated + [ds[i].name])
    case None =>
      if bs[j].AnyManaged() then b.(pruned := b.pruned + [bs[j].Name()])
      else b.(blocks := b.blocks + [bs[j]])
  }

  /** One bundle entry: appended as a new block unless an existing block is matched with it. */
  function SpecStep(bs: seq<RulesetBlock>, ds: seq<RulesetSpec>, b: Build, i: nat): Build
    requires i < |ds| && forall j :: 0 <= j < |bs| ==> bs[j].rules != []
  {
    if Claimed(bs, ds, i) then b
    else
      var rs := Minted(b.maxRuleset + 1);
      WriteSpec(b.(maxRuleset := b.maxRuleset + 1), ds[i], rs).(added := b.added + [ds[i].name])
  }

  function BlocksPass(bs: seq<RulesetBlock>, ds: seq<RulesetSpec>, start: Build, n: nat): Build
    requires n <= |bs| && forall i :: 0 <= i < |bs| ==> bs[i].rules != []
  {
    if n == 0 then start else BlockStep(bs, ds, BlocksPass(bs, ds, start, n - 1), n - 1)
  }

  function SpecsPass(bs: seq<RulesetBlock>, ds: seq<RulesetSpec>, start: Build, n: nat): Build
    requires n <= |ds| && forall i :: 0 <= i < |bs| ==> bs[i].rules != []
  {
    if n == 0 then start else SpecStep(bs, ds, SpecsPass(bs, ds, start, n - 1), n - 1)
  }

  function StartBuild(maxRule: nat, maxRuleset: nat): Build {
    Build([], maxRule, maxRuleset, [], [], [], [], [])
  }

  /** The whole convergence of the rule list. */
  function Converge(bs: seq<RulesetBlock>, ds: seq<RulesetSpec>, maxRule: nat, maxRuleset: nat): Build
    requires forall i :: 0 <= i < |bs| ==> bs[i].rules != []
  {
    SpecsPass(bs, ds, BlocksPass(bs, ds, StartBuild(maxRule, maxRuleset), |bs|), |ds|)
  }

  // ---- idempotence ----

  /** What the bundle validator guarantees: a nonempty name and at least one matcher. */
  predicate Complete(d: RulesetSpec) {
    d.name != "" && d.matchers != []
  }

  predicate AllComplete(ds: seq<RulesetSpec>) {
    forall i :: 0 <= i < |ds| ==> Complete(ds[i])
  }

  /** The report lists nothing as updated, pruned or added. */
  predicate Quiet(b: Build) {
    b.updated == [] && b.pruned == [] && b.added == []
  }

  predicate NonEmptyBlocks(bs: seq<RulesetBlock>) {
    forall i :: 0 <= i < |bs| ==> bs[i].rules != []
  }

  /** Managed block `j` is exactly what the entry it would be matched with asks for. */
  predicate Realized(bs: seq<RulesetBlock>, ds: seq<RulesetSpec>, j: nat)
    requires NonEmptyBlocks(bs) && j < |bs|
  {
    bs[j].AnyManaged() ==> MatchOf(bs, ds, j).Some? && Identical(bs[j], ds[MatchOf(bs, ds, j).value])
  }

  predicate AllRealized(bs: seq<RulesetBlock>, ds: seq<RulesetSpec>)
    requires NonEmptyBlocks(bs)
  {
    forall j :: 0 <= j < |bs| ==> Realized(bs, ds, j)
  }

  lemma {:induction false} ManagedNamedPrefix(bs: seq<RulesetBlock>, b: RulesetBlock, x: string, n: nat)
    requires NonEmptyBlocks(bs) && b.rules != [] && n <= |bs|
    ensures ManagedNamed(bs + [b], x, n) == ManagedNamed(bs, x, n)
  {
    if n != 0 {
      ManagedNamedPrefix(bs, b, x, n - 1);
    }
  }

  /** Appending one block keeps every earlier match. */
  lemma {:induction false} AppendKeepsRealized(bs: seq<RulesetBlock>, ds: seq<RulesetSpec>, b: RulesetBlock)
    requires NonEmptyBlocks(bs) && AllRealized(bs, ds) && b.rules != []
    requires b.AnyManaged() ==>
               && ManagedNamed(bs, b.Name(), |bs|) < SpecsNamed(ds, b.Name(), |ds|)
               && Identical(b, ds[NthSpec(ds, b.Name(), ManagedNamed(bs, b.Name(), |bs|), |ds|).value])
    ensures AllRealized(bs + [b], ds)
    ensures forall x :: ManagedNamed(bs + [b], x, |bs| + 1)
                        == ManagedNamed(bs, x, |bs|) + (if b.AnyManaged() && b.Name() == x then 1 else 0)
  {
    var out := bs + [b];
    forall x ensures ManagedNamed(out, x, |bs| + 1)
      == ManagedNamed(bs, x, |bs|) + (if b.AnyManaged() && b.Name() == x then 1 else 0) {
      ManagedNamedPrefix(bs, b, x, |bs|);
    }
    forall j | 0 <= j < |out| ensures Realized(out, ds, j) {
      ManagedNamedPrefix(bs, b, out[j].Name(), if j < |bs| then j else |bs|);
      if j < |bs| {
        assert Realized(bs, ds, j);
      }
    }
  }

  /** The rows written for a complete entry realize it. */
  lemma {:induction false} WrittenIsIdentical(base: nat, d: RulesetSpec, rs: Id)
    requires Complete(d)
    ensures var b := RulesetBlock(rs, NewRows(base, d.matchers, d.target, rs, d.name, true));
            b.rules != [] && b.AnyManaged() && b.Name() == d.name && Identical(b, d)
  {
    var b := RulesetBlock(rs, NewRows(base, d.matchers, d.target, rs, d.name, true));
    assert b.rules[0].managed;
  }

  function Min(a: nat, b: nat): nat {
    if a <= b then a else b
  }

  function Max(a: nat, b: nat): nat {
    if a >= b then a else b
  }

  /** After the first `n` blocks each name stands as often as blocks and entries both have it. */
  ghost predicate CountsUpTo(out: seq<RulesetBlock>, bs: seq<RulesetBlock>, ds: seq<RulesetSpec>, n: nat)
    requires NonEmptyBlocks(out) && NonEmptyBlocks(bs) && n <= |bs|
  {
    forall x :: ManagedNamed(out, x, |out|) == Min(ManagedNamed(bs, x, n), SpecsNamed(ds, x, |ds|))
  }

  /** A block appended for block `j` of the same name and kind. */
  lemma {:induction false} CountsWithBlock(out: seq<RulesetBlock>, b: RulesetBlock, bs: seq<RulesetBlock>,
                                           ds: seq<RulesetSpec>, j: nat)
    requires NonEmptyBlocks(out) && NonEmptyBlocks(bs) && j < |bs| && CountsUpTo(out, bs, ds, j) && b.rules != []
    requires b.AnyManaged() == bs[j].AnyManaged()
             && (b.AnyManaged() ==> b.Name() == bs[j].Name() && MatchOf(bs, ds, j).Some?)
    requires forall x :: ManagedNamed(out + [b], x, |out| + 1)
                         == ManagedNamed(out, x, |out|) + (if b.AnyManaged() && b.Name() == x then 1 else 0)
    ensures CountsUpTo(out + [b], bs, ds, j + 1)
  {
  }

  /** After the pass over the first `n` blocks: matched names are realized, in order, and nothing else is managed. */
  lemma {:induction false} BlocksPassRealizes(bs: seq<RulesetBlock>, ds: seq<RulesetSpec>, start: Build, n: nat)
    requires NonEmptyBlocks(bs) && AllComplete(ds) && n <= |bs| && start.blocks == []
    ensures var out := BlocksPass(bs, ds, start, n).blocks;
            NonEmptyBlocks(out) && AllRealized(out, ds) && CountsUpTo(out, bs, ds, n)
  {
    if n != 0 {
      BlocksPassRealizes(bs, ds, start, n - 1);
      BlockStepRealizes(bs, ds, BlocksPass(bs, ds, start, n - 1), n - 1);
    }
  }

  lemma {:induction false} BlockStepRealizes(bs: seq<RulesetBlock>, ds: seq<RulesetSpec>, b: Build, j: nat)
    requires NonEmptyBlocks(bs) && AllComplete(ds) && j < |bs|
    requires NonEmptyBlocks(b.blocks) && AllRealized(b.blocks, ds) && CountsUpTo(b.blocks, bs, ds, j)
    ensures var out := BlockStep(bs, ds, b, j).blocks;
            NonEmptyBlocks(out) && AllRealized(out, ds) && CountsUpTo(out, bs, ds, j + 1)
  {
    var r := MatchOf(bs, ds, j);
    if r.Some? && !Identical(bs[j], ds[r.value]) {
      var d := ds[r.value];
      assert Complete(d);
      WrittenIsIdentical(b.maxRule, d, bs[j].id);
      var block := RulesetBlock(bs[j].id, NewRows(b.maxRule, d.matchers, d.target, bs[j].id, d.name, true));
      AppendKeepsRealized(b.blocks, ds, block);
      CountsWithBlock(b.blocks, block, bs, ds, j);
      assert BlockStep(bs, ds, b, j).blocks == b.blocks + [block];
    } else if r.Some? || !bs[j].AnyManaged() {
      AppendKeepsRealized(b.blocks, ds, bs[j]);
      CountsWithBlock(b.blocks, bs[j], bs, ds, j);
      assert BlockStep(bs, ds, b, j).blocks == b.blocks + [bs[j]];
    }
  }

  /** After the first `n` entries of the second pass each name stands at least `n`'s share of times. */
  ghost predicate CountsAndSpecs(out: seq<RulesetBlock>, bs: seq<RulesetBlock>, ds: seq<RulesetSpec>, n: nat)
    requires NonEmptyBlocks(out) && NonEmptyBlocks(bs) && n <= |ds|
  {
    forall x :: ManagedNamed(out, x, |out|)
                == Max(Min(ManagedNamed(bs, x, |bs|), SpecsNamed(ds, x, |ds|)), SpecsNamed(ds, x, n))
  }

  lemma {:induction false} CountsWithEntry(out: seq<RulesetBlock>, b: RulesetBlock, bs: seq<RulesetBlock>,
                                           ds: seq<RulesetSpec>, i: nat)
    requires NonEmptyBlocks(out) && NonEmptyBlocks(bs) && i < |ds| && CountsAndSpecs(out, bs, ds, i) && b.rules != []
    requires b.AnyManaged() && b.Name() == ds[i].name && !Claimed(bs, ds, i)
    requires forall x :: ManagedNamed(out + [b], x, |out| + 1)
               == ManagedNamed(out, x, |out|) + (if b.Name() == x then 1 else 0)
    ensures CountsAndSpecs(out + [b], bs, ds, i + 1)
  {
  }

  lemma {:induction false} CountsWhenClaimed(out: seq<RulesetBlock>, bs: seq<RulesetBlock>, ds: seq<RulesetSpec>,
                                             i: nat)
    requires NonEmptyBlocks(out) && NonEmptyBlocks(bs) && i < |ds| && CountsAndSpecs(out, bs, ds, i)
             && Claimed(bs, ds, i)
    ensures CountsAndSpecs(out, bs, ds, i + 1)
  {
    SpecsNamedMonotone(ds, ds[i].name, i + 1, |ds|);
  }

  lemma {:induction false} SpecsPassRealizes(bs: seq<RulesetBlock>, ds: seq<RulesetSpec>, start: Build, n: nat)
    requires NonEmptyBlocks(bs) && AllComplete(ds) && n <= |ds|
    requires NonEmptyBlocks(start.blocks) && AllRealized(start.blocks, ds) && CountsUpTo(start.blocks, bs, ds, |bs|)
    ensures var out := SpecsPass(bs, ds, start, n).blocks;
            NonEmptyBlocks(out) && AllRealized(out, ds) && CountsAndSpecs(out, bs, ds, n)
  {
    if n != 0 {
      SpecsPassRealizes(bs, ds, start, n - 1);
      SpecStepRealizes(bs, ds, SpecsPass(bs, ds, start, n - 1), n - 1);
    }
  }

  lemma {:induction false} SpecStepRealizes(bs: seq<RulesetBlock>, ds: seq<RulesetSpec>, b: Build, i: nat)
    requires NonEmptyBlocks(bs) && AllComplete(ds) && i < |ds|
    requires NonEmptyBlocks(b.blocks) && AllRealized(b.blocks, ds) && CountsAndSpecs(b.blocks, bs, ds, i)
    ensures var out := SpecStep(bs, ds, b, i).blocks;
            NonEmptyBlocks(out) && AllRealized(out, ds) && CountsAndSpecs(out, bs, ds, i + 1)
  {
    var d := ds[i];
    if Claimed(bs, ds, i) {
      CountsWhenClaimed(b.blocks, bs, ds, i);
    } else {
      SpecsNamedMonotone(ds, d.name, i + 1, |ds|);
      var rs := Minted(b.maxRuleset + 1);
      WrittenIsIdentical(b.maxRule, d, rs);
      NthSpecAt(ds, i, |ds|);
      var block := RulesetBlock(rs, NewRows(b.maxRule, d.matchers, d.target, rs, d.name, true));
      assert ManagedNamed(b.blocks, d.name, |b.blocks|) == SpecsNamed(ds, d.name, i);
      AppendKeepsRealized(b.blocks, ds, block);
      CountsWithEntry(b.blocks, block, bs, ds, i);
      assert SpecStep(bs, ds, b, i).blocks == b.blocks + [block];
    }
  }

  /** Every entry is the one its own ordinal names. */
  lemma {:induction false} NthSpecAt(ds: seq<RulesetSpec>, i: nat, n: nat)
    requires i < n <= |ds|
    ensures NthSpec(ds, ds[i].name, SpecsNamed(ds, ds[i].name, i), n) == Some(i)
  {
    if i < n - 1 {
      NthSpecAt(ds, i, n - 1);
    }
  }

  /** A pass over realized blocks keeps them all and reports nothing. */
  lemma {:induction false} RealizedPassIsQuiet(bs: seq<RulesetBlock>, ds: seq<RulesetSpec>, start: Build, n: nat)
    requires NonEmptyBlocks(bs) && AllRealized(bs, ds) && n <= |bs| && start.blocks == [] && Quiet(start)
             && start.pending == []
    ensures var out := BlocksPass(bs, ds, start, n); out.blocks == bs[..n] && Quiet(out) && out.pending == []
  {
    if n != 0 {
      RealizedPassIsQuiet(bs, ds, start, n - 1);
      assert Realized(bs, ds, n - 1);
      assert bs[..n] == bs[..n - 1] + [bs[n - 1]];
    }
  }

  lemma {:induction false} ClaimedPassIsQuiet(bs: seq<RulesetBlock>, ds: seq<RulesetSpec>, start: Build, n: nat)
    requires NonEmptyBlocks(bs) && n <= |ds| && forall i :: 0 <= i < |ds| ==> Claimed(bs, ds, i)
    ensures SpecsPass(bs, ds, start, n) == start
  {
    if n != 0 {
      ClaimedPassIsQuiet(bs, ds, start, n - 1);
    }
  }

  lemma {:induction false} ConvergedRealizes(bs: seq<RulesetBlock>, ds: seq<RulesetSpec>, maxRule: nat, maxRuleset: nat)
    requires NonEmptyBlocks(bs) && AllComplete(ds)
    ensures var out := Converge(bs, ds, maxRule, maxRuleset).blocks;
            && NonEmptyBlocks(out) && AllRealized(out, ds)
            && forall i :: 0 <= i < |ds| ==> Claimed(out, ds, i)
  {
    var start := StartBuild(maxRule, maxRuleset);
    BlocksPassRealizes(bs, ds, start, |bs|);
    SpecsPassRealizes(bs, ds, BlocksPass(bs, ds, start, |bs|), |ds|);
    var out := Converge(bs, ds, maxRule, maxRuleset).blocks;
    forall i | 0 <= i < |ds| ensures Claimed(out, ds, i) {
      SpecsNamedMonotone(ds, ds[i].name, i + 1, |ds|);
    }
  }
}
