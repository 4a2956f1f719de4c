/** What every reachable state guarantees, told row by row and channel by channel. */
module Soundness {
  import opened Common
  import opened State
  import opened RulesetOps
  import opened Setup
  import opened Reachable

  /** Rows of one ruleset stand together and share their target. */
  ghost predicate Contiguous(rules: seq<Rule>) {
    forall i, j, k :: 0 <= i <= j <= k < |rules| && rules[i].ruleset == rules[k].ruleset ==>
      rules[j].ruleset == rules[i].ruleset && rules[j].target == rules[i].target
  }

  ghost predicate Sound(s: State) {
    && Contiguous(s.rules)
    && (forall i, j :: 0 <= i < j < |s.rules| ==> s.rules[i].id != s.rules[j].id)
    && (forall i :: 0 <= i < |s.rules| ==> s.rules[i].target.Via? ==>
          s.rules[i].target.ref in s.channels && s.channels[s.rules[i].target.ref].enabled)
    && (forall a, b :: a in s.channels && b in s.channels && a != b && s.channels[a].port != 0 ==>
          s.channels[a].port != s.channels[b].port)
    && (forall a :: a in s.channels && s.channels[a].port != 0 ==> s.channels[a].port != s.router.port)
    && (forall a :: a in s.channels ==> a.provider in s.providers)
  }

  lemma {:induction false} ContiguousFront(rules: seq<Rule>, n: nat)
    requires Contiguous(rules) && n <= |rules|
    ensures Contiguous(rules[..n])
  {
  }

  /** A row that fits keeps the rows contiguous. */
  lemma {:induction false} FittingRow(rules: seq<Rule>, r: Rule)
    requires Contiguous(rules) && Fits(rules, r)
    ensures Contiguous(rules + [r])
  {
    var out := rules + [r];
    var n := |rules|;
    forall i, j, k | 0 <= i <= j <= k < |out| && out[i].ruleset == out[k].ruleset
      ensures out[j].ruleset == out[i].ruleset && out[j].target == out[i].target
    {
      if k == n && i < n {
        assert HasRuleset(rules, r.ruleset);
        assert rules[n - 1].ruleset == rules[i].ruleset;
        assert rules[n - 1].target == rules[i].target;
      }
    }
  }

  /** And only such a row does. */
  lemma {:induction false} OnlyFitting(rules: seq<Rule>, r: Rule)
    requires Contiguous(rules + [r])
    ensures Fits(rules, r)
  {
    var out, n := rules + [r], |rules|;
    if HasRuleset(rules, r.ruleset) {
      var i :| 0 <= i < n && rules[i].ruleset == r.ruleset;
      assert out[i].ruleset == out[n].ruleset;
      assert out[n - 1].ruleset == out[i].ruleset && out[n - 1].target == out[i].target == out[n].target;
    }
  }

  lemma {:induction false} GroupedMeans(rules: seq<Rule>)
    ensures Grouped(rules) <==> Contiguous(rules)
  {
    if rules != [] {
      var front, r := rules[..|rules| - 1], rules[|rules| - 1];
      GroupedMeans(front);
      assert rules == front + [r];
      if Grouped(rules) {
        FittingRow(front, r);
      }
      if Contiguous(rules) {
        ContiguousFront(rules, |rules| - 1);
        OnlyFitting(front, r);
      }
    }
  }

  /** The standing invariants say exactly this. */
  lemma {:induction false} InvMeans(s: State)
    ensures Inv(s) <==> Sound(s)
  {
    GroupedMeans(s.rules);
  }

  /** Whatever is done to a blank setup, in whatever order, every state on the way is sound. */
  lemma {:induction false} RunsStaySound(states: seq<State>, ops: seq<Op>, n: nat)
    requires Run(states, ops) && n <= |ops|
    ensures Sound(states[n])
  {
    RunsKeepInv(states, ops, n);
    InvMeans(states[n]);
  }
}
