/** When "an unsupported constraint never matches" is on the safe side. */
module Unsupported {
  import opened Common
  import opened RuleSets

  // ---- verdicts of the leaves, taken by position ----

  /** What every leaf of a rule says, in the rule's own shape. */
  datatype Answers = Leaf(says: bool) | Node(each: seq<Answers>)

  /** The answers have the shape of the rule. */
  ghost predicate Fits(r: Rule, a: Answers) {
    match r
    case Default(_, _, _, _, _, _) => a.Leaf?
    case Logical(_, rules, _) => a.Node? && |a.each| == |rules|
                                 && forall i :: 0 <= i < |rules| ==> Fits(rules[i], a.each[i])
  }

  /** The verdict the answers give; a blind reader takes every unsupported leaf for a "no". */
  ghost predicate Says(r: Rule, a: Answers, blind: bool)
    requires Fits(r, a)
  {
    match r
    case Default(_, _, _, _, _, unsupported) => if blind && unsupported != [] then false else a.says
    case Logical(isAnd, rules, invert) =>
      (if isAnd then forall i :: 0 <= i < |rules| ==> Says(rules[i], a.each[i], blind)
       else exists i :: 0 <= i < |rules| && Says(rules[i], a.each[i], blind)) != invert
  }

  // ---- what a rule can say, from its structure alone ----

  /** Some answers of the leaves make the rule say `b`. */
  predicate CanSay(r: Rule, b: bool, blind: bool) {
    match r
    case Default(_, _, _, _, _, unsupported) => blind && unsupported != [] ==> !b
    case Logical(isAnd, rules, invert) =>
      if (b != invert) == isAnd then forall s <- rules :: CanSay(s, isAnd, blind)
      else exists s <- rules :: CanSay(s, !isAnd, blind)
  }

  /** The blind reader may say `b` where the rule says the opposite: some unsupported leaf errs that way, and everything
      beside the path to it can hold still. Each inverted rule on the path turns the direction around. */
  predicate Errs(r: Rule, b: bool) {
    match r
    case Default(_, _, _, _, _, unsupported) => unsupported != [] && !b
    case Logical(isAnd, rules, invert) =>
      var inner := b != invert;
      && (exists s <- rules :: Errs(s, inner))
      && (forall s <- rules :: CanSay(s, isAnd, inner == isAnd))
  }

  // ---- the structure tells the truth ----

  lemma {:induction false} SaidCanBeSaid(r: Rule, a: Answers, blind: bool)
    requires Fits(r, a)
    ensures CanSay(r, Says(r, a, blind), blind)
  {
    if r.Logical? {
      forall i | 0 <= i < |r.rules| ensures CanSay(r.rules[i], Says(r.rules[i], a.each[i], blind), blind) {
        SaidCanBeSaid(r.rules[i], a.each[i], blind);
      }
      if (Says(r, a, blind) != r.invert) != r.isAnd {
        var i :| 0 <= i < |r.rules| && Says(r.rules[i], a.each[i], blind) != r.isAnd;
        assert r.rules[i] in r.rules;
      }
    }
  }

  lemma {:induction false} ErrorIsForeseen(r: Rule, a: Answers)
    requires Fits(r, a) && Says(r, a, true) != Says(r, a, false)
    ensures Errs(r, Says(r, a, true))
  {
    if r.Logical? {
      var inner := Says(r, a, true) != r.invert;
      forall i | 0 <= i < |r.rules|
        ensures CanSay(r.rules[i], Says(r.rules[i], a.each[i], inner == r.isAnd), inner == r.isAnd)
      {
        SaidCanBeSaid(r.rules[i], a.each[i], inner == r.isAnd);
      }
      assert exists i :: 0 <= i < |r.rules| && Says(r.rules[i], a.each[i], true) == inner
               && Says(r.rules[i], a.each[i], false) != inner;
      var i :| 0 <= i < |r.rules| && Says(r.rules[i], a.each[i], true) == inner
          && Says(r.rules[i], a.each[i], false) != inner;
      ErrorIsForeseen(r.rules[i], a.each[i]);
      assert r.rules[i] in r.rules;
    }
  }

  // ---- and every error it foresees happens ----

  /** Any answers at all. */
  lemma {:induction false} SomeAnswers(r: Rule) returns (a: Answers)
    ensures Fits(r, a)
  {
    match r
    case Default(_, _, _, _, _, _) => a := Leaf(true);
    case Logical(_, rules, _) =>
      var each := [];
      while |each| < |rules|
        invariant |each| <= |rules| && forall i :: 0 <= i < |each| ==> Fits(rules[i], each[i])
      {
        var next := SomeAnswers(rules[|each|]);
        each := each + [next];
      }
      a := Node(each);
  }

  /** Answers for each of the rules, all with the verdict `b`. */
  lemma {:induction false} AllSaying(rules: seq<Rule>, b: bool, blind: bool) returns (each: seq<Answers>)
    requires forall s <- rules :: CanSay(s, b, blind)
    ensures |each| == |rules|
    ensures forall i :: 0 <= i < |rules| ==> Fits(rules[i], each[i]) && Says(rules[i], each[i], blind) == b
    decreases rules, 0
  {
    each := [];
    while |each| < |rules|
      invariant |each| <= |rules|
      invariant forall i :: 0 <= i < |each| ==> Fits(rules[i], each[i]) && Says(rules[i], each[i], blind) == b
    {
      var next := Saying(rules[|each|], b, blind);
      each := each + [next];
    }
  }

  lemma {:induction false} Saying(r: Rule, b: bool, blind: bool) returns (a: Answers)
    requires CanSay(r, b, blind)
    ensures Fits(r, a) && Says(r, a, blind) == b
    decreases r, 1
  {
    match r
    case Default(_, _, _, _, _, _) => a := Leaf(b);
    case Logical(isAnd, rules, invert) =>
      if (b != invert) == isAnd {
        var each := AllSaying(rules, isAnd, blind);
        a := Node(each);
      } else {
        var s :| s in rules && CanSay(s, !isAnd, blind);
        var k :| 0 <= k < |rules| && rules[k] == s;
        var said := Saying(rules[k], !isAnd, blind);
        a := SomeAnswers(r);
        a := Node(a.each[k := said]);
      }
  }

  /** One member errs and the others hold still, so the whole rule errs. */
  lemma {:induction false} ErrorCarries(r: Rule, b: bool, each: seq<Answers>, k: nat, wrong: Answers)
    requires r.Logical? && k < |r.rules| == |each|
    requires var inner := b != r.invert;
             && Fits(r.rules[k], wrong) && Says(r.rules[k], wrong, true) == inner
                && Says(r.rules[k], wrong, false) != inner
             && forall i :: 0 <= i < |each| ==>
                  Fits(r.rules[i], each[i]) && Says(r.rules[i], each[i], inner == r.isAnd) == r.isAnd
    ensures var a := Node(each[k := wrong]); Fits(r, a) && Says(r, a, true) == b && Says(r, a, false) != b
  {
    var inner := b != r.invert;
    var a := Node(each[k := wrong]);
    assert Says(r.rules[k], a.each[k], true) == inner && Says(r.rules[k], a.each[k], false) != inner;
    forall i | 0 <= i < |each| ensures Fits(r.rules[i], a.each[i])
      && (i != k ==> Says(r.rules[i], a.each[i], inner == r.isAnd) == r.isAnd) {}
  }

  lemma {:induction false} Erring(r: Rule, b: bool) returns (a: Answers)
    requires Errs(r, b)
    ensures Fits(r, a) && Says(r, a, true) == b && Says(r, a, false) != b
  {
    match r
    case Default(_, _, _, _, _, _) => a := Leaf(true);
    case Logical(isAnd, rules, invert) =>
      var inner := b != invert;
      var s :| s in rules && Errs(s, inner);
      var k :| 0 <= k < |rules| && rules[k] == s;
      var wrong := Erring(rules[k], inner);
      var each := AllSaying(rules, isAnd, inner == isAnd);
      a := Node(each[k := wrong]);
      ErrorCarries(r, b, each, k, wrong);
  }

  /** Reading blindly never invents a match, whatever the leaves say, exactly when the structure foresees no such
      error. */
  lemma {:induction false} ConservativeIffNoError(r: Rule)
    ensures (forall a: Answers :: Fits(r, a) && Says(r, a, true) ==> Says(r, a, false)) <==> !Errs(r, true)
  {
    if Errs(r, true) {
      var a := Erring(r, true);
    } else {
      forall a: Answers | Fits(r, a) && Says(r, a, true) ensures Says(r, a, false) {
        if !Says(r, a, false) {
          ErrorIsForeseen(r, a);
        }
      }
    }
  }

  // ---- actual verdicts ----

  /** What the leaves of a rule actually say, with `judge` deciding those that carry an unsupported constraint. */
  ghost function AnswersOf(r: Rule, judge: Rule -> bool, search: Search, domain: seq<byte>, ips: seq<Ip>): Answers
    requires WellFormed(r)
  {
    match r
    case Default(_, _, _, _, _, _) => Leaf(Verdict(r, judge, search, domain, ips))
    case Logical(_, rules, _) =>
      Node(seq(|rules|, i requires 0 <= i < |rules| => AnswersOf(rules[i], judge, search, domain, ips)))
  }

  lemma {:induction false} VerdictFromAnswers(r: Rule, judge: Rule -> bool, search: Search, domain: seq<byte>,
                                              ips: seq<Ip>)
    requires WellFormed(r)
    ensures var a := AnswersOf(r, judge, search, domain, ips);
            && Fits(r, a)
            && Says(r, a, false) == Verdict(r, judge, search, domain, ips)
            && Says(r, a, true) == Means(r, search, domain, ips)
  {
    if r.Logical? {
      var a := AnswersOf(r, judge, search, domain, ips);
      forall i | 0 <= i < |r.rules|
        ensures Fits(r.rules[i], a.each[i])
        ensures Says(r.rules[i], a.each[i], false) == Verdict(r.rules[i], judge, search, domain, ips)
        ensures Says(r.rules[i], a.each[i], true) == Means(r.rules[i], search, domain, ips)
      {
        VerdictFromAnswers(r.rules[i], judge, search, domain, ips);
      }
    }
  }

  /** A match of such a rule is a match whatever the unsupported constraints would have said, for every destination. */
  lemma {:induction false} UnsupportedIsConservative(r: Rule, judge: Rule -> bool, search: Search, domain: seq<byte>,
                                                     ips: seq<Ip>)
    requires WellFormed(r) && !Errs(r, true)
    ensures Means(r, search, domain, ips) ==> Verdict(r, judge, search, domain, ips)
  {
    VerdictFromAnswers(r, judge, search, domain, ips);
    ConservativeIffNoError(r);
  }

  // ---- counting inversions ----

  predicate Evaluable(r: Rule) {
    match r
    case Default(_, _, _, _, _, unsupported) => unsupported == []
    case Logical(_, rules, _) => forall s <- rules :: Evaluable(s)
  }

  /** Every unsupported leaf lies under an even (else odd) number of inverted logical rules. */
  predicate Parity(r: Rule, even: bool) {
    match r
    case Default(_, _, _, _, _, unsupported) => unsupported != [] ==> even
    case Logical(_, rules, invert) => forall s <- rules :: Parity(s, even != invert)
  }

  /** Even parity is safe; odd parity is safe in the other direction. */
  lemma {:induction false} ParitySuffices(r: Rule, b: bool)
    requires Parity(r, b)
    ensures !Errs(r, b)
  {
    if r.Logical? {
      forall s | s in r.rules ensures !Errs(s, b != r.invert) {
        ParitySuffices(s, b != r.invert);
      }
    }
  }

  predicate NoEmptyRule(r: Rule) {
    r.Logical? ==> r.rules != [] && forall s <- r.rules :: NoEmptyRule(s)
  }

  /** No logical rule has unsupported leaves below two of its members. */
  predicate OneBlindBranch(r: Rule) {
    r.Logical? ==>
      && (forall s <- r.rules :: OneBlindBranch(s))
      && (forall i, j :: 0 <= i < j < |r.rules| ==> Evaluable(r.rules[i]) || Evaluable(r.rules[j]))
  }

  lemma {:induction false} AnythingCanBeSaid(r: Rule, b: bool, blind: bool)
    requires NoEmptyRule(r) && (blind ==> Evaluable(r))
    ensures CanSay(r, b, blind)
  {
    if r.Logical? {
      assert r.rules[0] in r.rules;
      forall s | s in r.rules ensures CanSay(s, r.isAnd, blind) && CanSay(s, !r.isAnd, blind) {
        AnythingCanBeSaid(s, r.isAnd, blind);
        AnythingCanBeSaid(s, !r.isAnd, blind);
      }
    }
  }

  lemma {:induction false} EvaluableHasParity(r: Rule, even: bool)
    requires Evaluable(r)
    ensures Parity(r, even)
  {
    if r.Logical? {
      forall s | s in r.rules ensures Parity(s, even != r.invert) {
        EvaluableHasParity(s, even != r.invert);
      }
    }
  }

  lemma {:induction false} ErrorCanBeSaid(r: Rule, b: bool)
    requires Errs(r, b)
    ensures CanSay(r, b, true)
  {
    var a := Erring(r, b);
    SaidCanBeSaid(r, a, true);
  }

  /** Where unsupported leaves do not mask one another, parity decides. */
  lemma {:induction false} ParityDecides(r: Rule, b: bool)
    requires NoEmptyRule(r) && OneBlindBranch(r)
    ensures Errs(r, b) <==> !Parity(r, b)
  {
    if Parity(r, b) {
      ParitySuffices(r, b);
    } else if r.Logical? {
      var inner := b != r.invert;
      var s :| s in r.rules && !Parity(s, inner);
      var k :| 0 <= k < |r.rules| && r.rules[k] == s;
      ParityDecides(s, inner);
      ErrorCanBeSaid(s, inner);
      forall i | 0 <= i < |r.rules| ensures CanSay(r.rules[i], r.isAnd, inner == r.isAnd) {
        if inner != r.isAnd || i != k {
          if Evaluable(s) {
            EvaluableHasParity(s, inner);
          }
          AnythingCanBeSaid(r.rules[i], r.isAnd, inner == r.isAnd);
        }
      }
    }
  }

  /** Parity is not needed in general: an unsupported leaf may mask another one beside it. */
  lemma {:induction false} MaskedLeafIsHarmless(d: Rule)
    requires d.Default? && d.unsupported != []
    ensures var r := Logical(true, [d, Logical(false, [d], true)], false);
            NoEmptyRule(r) && !Parity(r, true) && !Errs(r, true)
  {
    var inverted := Logical(false, [d], true);
    var r := Logical(true, [d, inverted], false);
    assert d in r.rules && inverted in r.rules && d in inverted.rules;
    assert !CanSay(d, true, true);
    assert !Parity(d, false);
    assert !Parity(inverted, true);
  }
}
