/** Reading rule rows of any age: rows without a ruleset are folded into blocks of their own. */
module Normalize {
  import opened Common
  import opened Routes
  import opened State

  /** A row as it may stand in the file: older rows have no ruleset, and sometimes no name. */
  datatype RawRule = RawRule(id: Id, matcher: Matcher, target: Target, ruleset: Option<Id>, name: Option<string>,
                             managed: bool)

  /** The legacy exact type reads as the one domain type there is. */
  function ModernMatcher(m: Matcher): Matcher {
    if m.kind == "domain" then m.(kind := "domain_suffix") else m
  }

  function MaxRaw(raw: seq<RawRule>): (m: nat)
    ensures forall i :: 0 <= i < |raw| && raw[i].ruleset.Some? ==> Num(raw[i].ruleset.value) <= m
    ensures m == 0 || exists i :: 0 <= i < |raw| && raw[i].ruleset.Some? && Num(raw[i].ruleset.value) == m
  {
    if raw == [] then 0
    else
      var m := MaxRaw(raw[..|raw| - 1]);
      var last := raw[|raw| - 1];
      assert forall i :: 0 <= i < |raw| - 1 ==> raw[..|raw| - 1][i] == raw[i];
      if last.ruleset.Some? && Num(last.ruleset.value) > m then Num(last.ruleset.value) else m
  }

  // ---- the pass ----

  /** Rows so far; the highest ruleset number in use; the target of the legacy run still open, whose ruleset is the
      last one minted. */
  datatype Pass = Pass(rules: seq<Rule>, top: nat, open: Option<Target>)

  function PassStep(p: Pass, r: RawRule): Pass {
    var m := ModernMatcher(r.matcher);
    match r.ruleset
    case Some(rs) =>
      Pass(p.rules + [Rule(r.id, m, r.target, rs, if r.name.Some? then r.name.value else TargetName(r.target),
                                                    r.managed)],
           p.top, None)
    case None =>
      var top := if p.open == Some(r.target) then p.top else p.top + 1;
      Pass(p.rules + [Rule(r.id, m, r.target, Minted(top), TargetName(r.target), r.managed)], top, Some(r.target))
  }

  function PassUpTo(raw: seq<RawRule>, n: nat): (p: Pass)
    requires n <= |raw|
    ensures |p.rules| == n
  {
    if n == 0 then Pass([], MaxRaw(raw), None) else PassStep(PassUpTo(raw, n - 1), raw[n - 1])
  }

  function Normalized(raw: seq<RawRule>): (rules: seq<Rule>)
    ensures |rules| == |raw|
  {
    PassUpTo(raw, |raw|).rules
  }

  /** `_normalize_rulesets` */
  method NormalizeRulesets(raw: seq<RawRule>) returns (rules: seq<Rule>)
    ensures rules == Normalized(raw)
  {
    rules := [];
    var top := MaxRaw(raw);
    var open: Option<Target> := None;
    var name := "";
    for i := 0 to |raw|
      invariant Pass(rules, top, open) == PassUpTo(raw, i)
      invariant open.Some? ==> name == TargetName(open.value)
    {
      var r := raw[i];
      var m := r.matcher;
      if m.kind == "domain" {
        m := m.(kind := "domain_suffix");
      }
      if r.ruleset.Some? {
        rules := rules + [Rule(r.id, m, r.target, r.ruleset.value, if r.name.Some? then r.name.value
              else TargetName(r.target), r.managed)];
        open := None;
        continue;
      }
      if open != Some(r.target) {
        top := top + 1;
        name := TargetName(r.target);
        open := Some(r.target);
      }
      rules := rules + [Rule(r.id, m, r.target, Minted(top), name, r.managed)];
    }
  }
}
