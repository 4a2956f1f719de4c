/** What the loading pass makes of each row, and contiguity told position by position: the steps between a file's
    own blocks and the rulesets it loads into. */
module NormalizedRows {
  import opened Common
  import opened Routes
  import opened State
  import opened Normalize

  // ---- what contiguity means position by position ----

  /** Rows of one ruleset stand together and share their target. */
  ghost predicate Together(rules: seq<Rule>) {
    forall i, k, j :: 0 <= i <= k <= j < |rules| && rules[i].ruleset == rules[j].ruleset ==>
      rules[k].ruleset == rules[i].ruleset && rules[k].target == rules[i].target
  }

  lemma {:induction false} GroupedIsTogether(rules: seq<Rule>)
    ensures Grouped(rules) <==> Together(rules)
  {
    if rules != [] {
      var front, last := rules[..|rules| - 1], rules[|rules| - 1];
      GroupedIsTogether(front);
      if Grouped(rules) {
        StillTogether(rules);
      }
      if Together(rules) {
        assert Together(front) by {
          forall i, k, j | 0 <= i <= k <= j < |front| && front[i].ruleset == front[j].ruleset
            ensures front[k].ruleset == front[i].ruleset && front[k].target == front[i].target
          {
            assert rules[i].ruleset == rules[j].ruleset && rules[k] == front[k];
          }
        }
        if HasRuleset(front, last.ruleset) {
          var i :| 0 <= i < |front| && front[i].ruleset == last.ruleset;
          assert rules[i].ruleset == rules[|rules| - 1].ruleset;
          assert rules[|rules| - 2].ruleset == rules[i].ruleset && rules[|rules| - 2].target == rules[i].target;
          assert rules[|rules| - 1].target == rules[i].target;
        }
      }
    }
  }

  lemma {:induction false} StillTogether(rules: seq<Rule>)
    requires rules != [] && Together(rules[..|rules| - 1]) && Fits(rules[..|rules| - 1], rules[|rules| - 1])
    ensures Together(rules)
  {
    var front, n := rules[..|rules| - 1], |rules| - 1;
    forall i, k, j | 0 <= i <= k <= j < |rules| && rules[i].ruleset == rules[j].ruleset
      ensures rules[k].ruleset == rules[i].ruleset && rules[k].target == rules[i].target
    {
      if j < n {
        assert front[i].ruleset == front[j].ruleset && front[k] == rules[k];
      } else if i < n {
        assert front[i].ruleset == rules[n].ruleset;
        assert front[i].ruleset == front[n - 1].ruleset;
        if k < n {
          assert front[k].ruleset == front[i].ruleset && front[k].target == front[i].target;
        }
        assert front[n - 1].target == front[i].target;
      }
    }
  }

  // ---- when a mixed file comes out grouped ----

  /** The blocks a file already has are whole: nothing stands between two rows of one, and they share a target. */
  ghost predicate BlocksWhole(raw: seq<RawRule>) {
    forall i, k, j :: 0 <= i <= k <= j < |raw| && raw[i].ruleset.Some? && raw[i].ruleset == raw[j].ruleset ==>
      raw[k].ruleset == raw[i].ruleset && raw[k].target == raw[i].target
  }

  /** What the pass makes of row `i`. */
  lemma {:induction false} RowAt(raw: seq<RawRule>, n: nat, i: nat)
    requires i < n <= |raw|
    ensures var out := PassUpTo(raw, n).rules[i];
            && out.id == raw[i].id && out.matcher == ModernMatcher(raw[i].matcher) && out.target == raw[i].target
            && out.managed == raw[i].managed
            && (raw[i].ruleset.Some? ==>
                  out.ruleset == raw[i].ruleset.value && (raw[i].name.Some? ==> out.name == raw[i].name.value))
            && (raw[i].ruleset.None? ==> out.ruleset == Minted(PassUpTo(raw, i + 1).top))
            && (raw[i].ruleset.None? || raw[i].name.None? ==> out.name == TargetName(raw[i].target))
  {
    if i < n - 1 {
      RowAt(raw, n - 1, i);
    }
  }

  lemma {:induction false} TopGrows(raw: seq<RawRule>, i: nat, j: nat)
    requires i <= j <= |raw|
    ensures MaxRaw(raw) <= PassUpTo(raw, i).top <= PassUpTo(raw, j).top
    ensures i < |raw| && raw[i].ruleset.None? && i < j ==> PassUpTo(raw, j).top > MaxRaw(raw)
  {
    if i < j {
      TopGrows(raw, i, j - 1);
      if i == j - 1 {
        FirstLegacyMints(raw, i);
      }
    } else if i > 0 {
      TopGrows(raw, i - 1, i - 1);
    }
  }

  /** An open run means something was minted. */
  lemma {:induction false} FirstLegacyMints(raw: seq<RawRule>, i: nat)
    requires i <= |raw|
    ensures PassUpTo(raw, i).open.Some? ==> PassUpTo(raw, i).top > MaxRaw(raw)
    ensures PassUpTo(raw, i).top >= MaxRaw(raw)
  {
    if i > 0 {
      FirstLegacyMints(raw, i - 1);
    }
  }

  /** Two legacy rows share a minted ruleset only across legacy rows of one target. */
  lemma {:induction false} SharedRun(raw: seq<RawRule>, i: nat, j: nat)
    requires i < j < |raw| && raw[i].ruleset.None? && PassUpTo(raw, i + 1).top == PassUpTo(raw, j + 1).top
             && raw[j].ruleset.None?
    ensures forall k :: i <= k <= j ==> raw[k].ruleset.None? && raw[k].target == raw[i].target
    decreases j
  {
    JoinsRowBefore(raw, i, j);
    if i < j - 1 {
      SharedRun(raw, i, j - 1);
    }
  }

  /** A row that got the number of an earlier row joined the row right before it. */
  lemma {:induction false} JoinsRowBefore(raw: seq<RawRule>, i: nat, j: nat)
    requires i < j < |raw| && raw[j].ruleset.None? && PassUpTo(raw, i + 1).top == PassUpTo(raw, j + 1).top
    ensures raw[j - 1].ruleset.None? && raw[j - 1].target == raw[j].target
    ensures PassUpTo(raw, j).top == PassUpTo(raw, i + 1).top
  {
    TopGrows(raw, i + 1, j);
    assert PassUpTo(raw, j).open == Some(raw[j].target);
    OpenMeansLegacy(raw, j);
  }

  lemma {:induction false} OpenMeansLegacy(raw: seq<RawRule>, j: nat)
    requires 0 < j <= |raw| && PassUpTo(raw, j).open.Some?
    ensures raw[j - 1].ruleset.None? && raw[j - 1].target == PassUpTo(raw, j).open.value
  {
  }

  lemma {:induction false} RowFacts(raw: seq<RawRule>, i: nat)
    requires i < |raw|
    ensures Normalized(raw)[i].target == raw[i].target
    ensures raw[i].ruleset.Some? ==>
              Normalized(raw)[i].ruleset == raw[i].ruleset.value && Num(Normalized(raw)[i].ruleset) <= MaxRaw(raw)
    ensures raw[i].ruleset.None? ==> Normalized(raw)[i].ruleset == Minted(PassUpTo(raw, i + 1).top)
                                     && Num(Normalized(raw)[i].ruleset) > MaxRaw(raw)
  {
    RowAt(raw, |raw|, i);
    TopGrows(raw, i, i + 1);
  }

  lemma {:induction false} SameRunBetween(raw: seq<RawRule>, i: nat, k: nat, j: nat)
    requires i <= k <= j < |raw| && raw[i].ruleset.None? && raw[j].ruleset.None?
    requires PassUpTo(raw, i + 1).top == PassUpTo(raw, j + 1).top
    ensures raw[k].ruleset.None? && raw[k].target == raw[i].target
            && PassUpTo(raw, k + 1).top == PassUpTo(raw, i + 1).top
  {
    if i < j {
      SharedRun(raw, i, j);
      TopGrows(raw, i + 1, k + 1);
      TopGrows(raw, k + 1, j + 1);
    }
  }

  lemma {:induction false} WholeBetween(raw: seq<RawRule>, i: nat, k: nat, j: nat)
    requires BlocksWhole(raw) && i <= k <= j < |raw| && Normalized(raw)[i].ruleset == Normalized(raw)[j].ruleset
    ensures Normalized(raw)[k].ruleset == Normalized(raw)[i].ruleset
            && Normalized(raw)[k].target == Normalized(raw)[i].target
  {
    RowFacts(raw, i);
    RowFacts(raw, k);
    RowFacts(raw, j);
    if raw[i].ruleset.Some? {
      assert raw[i].ruleset == raw[j].ruleset;
    } else {
      SameRunBetween(raw, i, k, j);
    }
  }

  lemma {:induction false} WholeMeansTogether(raw: seq<RawRule>)
    requires BlocksWhole(raw)
    ensures Together(Normalized(raw))
  {
    var out := Normalized(raw);
    forall i, k, j | 0 <= i <= k <= j < |out| && out[i].ruleset == out[j].ruleset
      ensures out[k].ruleset == out[i].ruleset && out[k].target == out[i].target
    {
      WholeBetween(raw, i, k, j);
    }
  }

  lemma {:induction false} TogetherMeansWhole(raw: seq<RawRule>)
    requires Together(Normalized(raw))
    ensures BlocksWhole(raw)
  {
    var out := Normalized(raw);
    forall i, k, j | 0 <= i <= k <= j < |raw| && raw[i].ruleset.Some? && raw[i].ruleset == raw[j].ruleset
      ensures raw[k].ruleset == raw[i].ruleset && raw[k].target == raw[i].target
    {
      RowFacts(raw, i);
      RowFacts(raw, k);
      RowFacts(raw, j);
      assert out[i].ruleset == out[j].ruleset;
    }
  }
}
