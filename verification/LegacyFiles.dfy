/** Which rule files of any age load into contiguous rulesets. */
module LegacyFiles {
  import opened Common
  import opened Routes
  import opened State
  import opened Normalize
  import opened NormalizedRows

  /** Exactly the files whose existing blocks are whole come out grouped; older files without any block always do. */
  lemma {:induction false} GroupedIffBlocksWhole(raw: seq<RawRule>)
    ensures Grouped(Normalized(raw)) <==> BlocksWhole(raw)
  {
    GroupedIsTogether(Normalized(raw));
    if BlocksWhole(raw) {
      WholeMeansTogether(raw);
    }
    if Together(Normalized(raw)) {
      TogetherMeansWhole(raw);
    }
  }

  /** A file without rulesets always comes out grouped. */
  lemma {:induction false} LegacyFilesAreGrouped(raw: seq<RawRule>)
    requires forall i :: 0 <= i < |raw| ==> raw[i].ruleset.None?
    ensures Grouped(Normalized(raw))
  {
    GroupedIffBlocksWhole(raw);
  }

  /** A legacy row inside a block splits it: such a file loads, and every ruleset operation then refuses it. */
  lemma {:induction false} SplitBlockStaysSplit(m: Matcher)
    ensures var raw := [RawRule(Minted(1), m, Direct, Some(Minted(1)), None, false),
                        RawRule(Minted(2), m, Block, None, None, false),
                        RawRule(Minted(3), m, Direct, Some(Minted(1)), None, false)];
            !Grouped(Normalized(raw))
  {
    var raw := [RawRule(Minted(1), m, Direct, Some(Minted(1)), None, false),
                RawRule(Minted(2), m, Block, None, None, false),
                RawRule(Minted(3), m, Direct, Some(Minted(1)), None, false)];
    GroupedIffBlocksWhole(raw);
    assert raw[0].ruleset == raw[2].ruleset && raw[1].ruleset != raw[0].ruleset;
  }

  // ---- what every row becomes ----

  predicate NamedAfter(t: Target, name: string) {
    match t
    case Direct => name == "Direct"
    case Block => name == "Block"
    case Via(ref) => name == ref.provider + "/" + ref.cid
    case Bare(text) => name == text
  }

  /** A row keeps everything it has; the legacy matcher type and missing ruleset names are filled in. */
  predicate LoadedAs(r: RawRule, out: Rule) {
    && out.id == r.id && out.target == r.target && out.managed == r.managed && out.matcher.value == r.matcher.value
    && out.matcher.kind == (if r.matcher.kind == "domain" then "domain_suffix" else r.matcher.kind)
    && (r.ruleset.Some? ==> out.ruleset == r.ruleset.value)
    && (r.ruleset.None? ==> out.ruleset.Minted?)
    && (if r.ruleset.Some? && r.name.Some? then out.name == r.name.value else NamedAfter(r.target, out.name))
  }

  /** Rows `i` to `j` are legacy rows of one target. */
  predicate OneRun(raw: seq<RawRule>, i: nat, j: nat)
    requires i <= j < |raw|
  {
    forall k :: i <= k <= j ==> raw[k].ruleset.None? && raw[k].target == raw[i].target
  }

  /** Ruleset number `n` is in use by a row that has a ruleset, or given to a legacy row before row `i`. */
  ghost predicate NumberUsed(raw: seq<RawRule>, out: seq<Rule>, i: nat, n: int)
    requires |out| == |raw| && i <= |raw|
  {
    || (exists j :: 0 <= j < |raw| && raw[j].ruleset.Some? && Num(raw[j].ruleset.value) == n)
    || (exists j :: 0 <= j < i && raw[j].ruleset.None? && out[j].ruleset.Minted? && out[j].ruleset.n == n)
  }

  /** Legacy rows share a ruleset exactly along a run of one target, under the next number above all that are in use:
      never one a row already has, and without leaving any out. */
  ghost predicate NumberedByRun(raw: seq<RawRule>, out: seq<Rule>)
    requires |out| == |raw|
  {
    && (forall i, j :: 0 <= i < j < |raw| && raw[i].ruleset.None? && raw[j].ruleset.None? ==>
          (out[i].ruleset == out[j].ruleset <==> OneRun(raw, i, j)))
    && (forall i, j :: 0 <= i < |raw| && 0 <= j < |raw| && raw[i].ruleset.None? && raw[j].ruleset.Some? ==>
          Num(out[i].ruleset) > Num(raw[j].ruleset.value))
    && (forall i :: 0 <= i < |raw| && raw[i].ruleset.None? ==>
          Num(out[i].ruleset) == 1 || NumberUsed(raw, out, i, Num(out[i].ruleset) - 1))
  }

  lemma {:induction false} RunSharesNumber(raw: seq<RawRule>, i: nat, j: nat)
    requires i <= j < |raw| && OneRun(raw, i, j)
    ensures PassUpTo(raw, j + 1).top == PassUpTo(raw, i + 1).top
    ensures PassUpTo(raw, j + 1).open == Some(raw[i].target)
    decreases j
  {
    assert raw[j].ruleset.None? && raw[j].target == raw[i].target;
    if i < j {
      RunSharesNumber(raw, i, j - 1);
    }
  }

  /** The counter stands at the highest number of the file, or at one it gave out. */
  lemma {:induction false} TopIsUsed(raw: seq<RawRule>, i: nat)
    requires i <= |raw|
    ensures PassUpTo(raw, i).top == MaxRaw(raw)
            || exists j :: 0 <= j < i && raw[j].ruleset.None? && PassUpTo(raw, j + 1).top == PassUpTo(raw, i).top
  {
    if i > 0 {
      TopIsUsed(raw, i - 1);
    }
  }

  lemma {:induction false} NumberFollows(raw: seq<RawRule>, i: nat)
    requires i < |raw| && raw[i].ruleset.None?
    ensures var n := PassUpTo(raw, i + 1).top;
            n == 1 || (n > 0 && NumberUsed(raw, Normalized(raw), i, n - 1))
  {
    var n := PassUpTo(raw, i + 1).top;
    TopGrows(raw, i, i + 1);
    if PassUpTo(raw, i).top == n {
      OpenMeansLegacy(raw, i);
      NumberFollows(raw, i - 1);
    } else {
      TopIsUsed(raw, i);
      forall j | 0 <= j < i && raw[j].ruleset.None?
        ensures Normalized(raw)[j].ruleset == Minted(PassUpTo(raw, j + 1).top)
      {
        RowFacts(raw, j);
      }
    }
  }

  lemma {:induction false} SharesAlongRun(raw: seq<RawRule>, i: nat, j: nat)
    requires i < j < |raw| && raw[i].ruleset.None? && raw[j].ruleset.None?
    ensures Normalized(raw)[i].ruleset == Normalized(raw)[j].ruleset <==> OneRun(raw, i, j)
  {
    RowFacts(raw, i);
    RowFacts(raw, j);
    if OneRun(raw, i, j) {
      RunSharesNumber(raw, i, j);
    } else if PassUpTo(raw, i + 1).top == PassUpTo(raw, j + 1).top {
      SharedRun(raw, i, j);
    }
  }

  lemma {:induction false} NumberedNext(raw: seq<RawRule>, i: nat)
    requires i < |raw| && raw[i].ruleset.None?
    ensures var n := Num(Normalized(raw)[i].ruleset);
            && (n == 1 || NumberUsed(raw, Normalized(raw), i, n - 1))
            && forall j :: 0 <= j < |raw| && raw[j].ruleset.Some? ==> n > Num(raw[j].ruleset.value)
  {
    RowFacts(raw, i);
    NumberFollows(raw, i);
  }

  /** What loading makes of a file's rows. */
  lemma {:induction false} LoadedMeans(raw: seq<RawRule>)
    ensures forall i :: 0 <= i < |raw| ==> LoadedAs(raw[i], Normalized(raw)[i])
    ensures NumberedByRun(raw, Normalized(raw))
  {
    forall i | 0 <= i < |raw| ensures LoadedAs(raw[i], Normalized(raw)[i]) {
      RowAt(raw, |raw|, i);
    }
    forall i, j | 0 <= i < j < |raw| && raw[i].ruleset.None? && raw[j].ruleset.None?
      ensures Normalized(raw)[i].ruleset == Normalized(raw)[j].ruleset <==> OneRun(raw, i, j)
    {
      SharesAlongRun(raw, i, j);
    }
    forall i | 0 <= i < |raw| && raw[i].ruleset.None?
      ensures Num(Normalized(raw)[i].ruleset) == 1
              || NumberUsed(raw, Normalized(raw), i, Num(Normalized(raw)[i].ruleset) - 1)
      ensures forall j :: 0 <= j < |raw| && raw[j].ruleset.Some? ==>
                Num(Normalized(raw)[i].ruleset) > Num(raw[j].ruleset.value)
    {
      NumberedNext(raw, i);
    }
  }

  /** Rows in the present shape. */
  function Reread(r: Rule): RawRule {
    RawRule(r.id, r.matcher, r.target, Some(r.ruleset), Some(r.name), r.managed)
  }

  function RereadAll(rules: seq<Rule>): (raw: seq<RawRule>)
    ensures |raw| == |rules| && forall i :: 0 <= i < |rules| ==> raw[i] == Reread(rules[i])
  {
    if rules == [] then [] else RereadAll(rules[..|rules| - 1]) + [Reread(rules[|rules| - 1])]
  }

  /** Normalizing is done once: its result read again is itself. */
  lemma {:induction false} NormalizedIsStable(raw: seq<RawRule>)
    ensures Normalized(RereadAll(Normalized(raw))) == Normalized(raw)
  {
    var once := Normalized(raw);
    var again := RereadAll(once);
    forall i | 0 <= i < |once| ensures Normalized(again)[i] == once[i] {
      RowAt(raw, |raw|, i);
      RowAt(again, |again|, i);
    }
  }
}
