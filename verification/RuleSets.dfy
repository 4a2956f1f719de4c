/** Evaluation of parsed rule-sets: the address-range lookup and the nested and/or/invert rules. */
module RuleSets {
  import opened Common
  import opened LabelTree
  import opened Louds
  import opened SuccinctTrie

  // ---- sorted address ranges ----

  /** An inclusive address range; addresses are at most 128 bits wide. */
  datatype Range = Range(from: nat, to: nat)
  datatype Ip = Ip(version: nat, value: nat)

  /** Python's tuple order on `(from, to)`. */
  predicate RangeLeq(a: Range, b: Range) {
    a.from < b.from || (a.from == b.from && a.to <= b.to)
  }

  predicate SortedRanges(family: seq<Range>) {
    forall i, j :: 0 <= i < j < |family| ==> RangeLeq(family[i], family[j])
  }

  /** `bisect_right(family, (value, 2**128))`: the ranges that start at or below `value`. */
  function BisectRanges(family: seq<Range>, value: nat): (p: nat)
    requires SortedRanges(family)
    ensures p <= |family|
    ensures forall i :: 0 <= i < p ==> family[i].from <= value
    ensures forall i :: p <= i < |family| ==> value < family[i].from
  {
    if family == [] then 0
    else if family[|family| - 1].from <= value then |family|
    else BisectRanges(family[..|family| - 1], value)
  }

  /** `_contains` on one family: only the last range starting at or below the address is looked at. */
  predicate Contains(family: seq<Range>, value: nat)
    requires SortedRanges(family)
  {
    var i := BisectRanges(family, value) - 1;
    i >= 0 && family[i].from <= value <= family[i].to
  }

  ghost predicate InSomeRange(family: seq<Range>, value: nat) {
    exists i :: 0 <= i < |family| && family[i].from <= value <= family[i].to
  }

  /** Where the lookup stops consulting range `k`: just below the next range's start. */
  function LastFor(family: seq<Range>, j: nat, k: nat): int
    requires j < k < |family|
  {
    if k + 1 < |family| && family[k + 1].from - 1 < family[j].to then family[k + 1].from - 1 else family[j].to
  }

  /** Range `k` hides the tail of the earlier, longer range `j`. */
  predicate Hides(family: seq<Range>, j: nat, k: nat)
    requires j < k < |family|
  {
    family[k].from <= LastFor(family, j, k) && family[k].to < LastFor(family, j, k)
  }

  ghost predicate NothingHidden(family: seq<Range>) {
    forall j, k :: 0 <= j < k < |family| ==> !Hides(family, j, k)
  }

  lemma {:induction false} MissMeansHidden(family: seq<Range>, value: nat, j: nat)
    requires SortedRanges(family) && j < |family| && family[j].from <= value <= family[j].to
    requires !Contains(family, value)
    ensures exists k :: j < k < |family| && Hides(family, j, k)
  {
    var k := BisectRanges(family, value) - 1;
    assert j < k && Hides(family, j, k);
  }

  lemma {:induction false} HiddenMeansMiss(family: seq<Range>, j: nat, k: nat) returns (value: nat)
    requires SortedRanges(family) && j < k < |family| && Hides(family, j, k)
    ensures InSomeRange(family, value) && !Contains(family, value)
  {
    value := LastFor(family, j, k);
    assert family[j].from <= family[k].from;
    var p := BisectRanges(family, value);
    assert p == k + 1;
  }

  /** The lookup answers membership in the union of the ranges for every address exactly when no range
      hides the tail of an earlier one. */
  lemma {:induction false} ContainsIsMembership(family: seq<Range>)
    requires SortedRanges(family)
    ensures (forall value: nat :: Contains(family, value) <==> InSomeRange(family, value))
            <==> NothingHidden(family)
  {
    if NothingHidden(family) {
      forall value: nat ensures Contains(family, value) <==> InSomeRange(family, value) {
        if InSomeRange(family, value) && !Contains(family, value) {
          var j :| 0 <= j < |family| && family[j].from <= value <= family[j].to;
          MissMeansHidden(family, value, j);
        }
      }
    } else {
      var j, k :| 0 <= j < k < |family| && Hides(family, j, k);
      var value := HiddenMeansMiss(family, j, k);
    }
  }

  /** The serialized sets are disjoint, and disjoint ranges hide nothing. */
  lemma {:induction false} DisjointRangesHideNothing(family: seq<Range>)
    requires SortedRanges(family)
    requires forall i, j :: 0 <= i < j < |family| ==> family[i].to < family[j].from
    ensures forall value: nat :: Contains(family, value) <==> InSomeRange(family, value)
  {
    assert NothingHidden(family);
    ContainsIsMembership(family);
  }

  /** The reader sorts but does not check disjointness: a short range inside a long one hides its tail. */
  lemma {:induction false} OverlapHidesTail()
    ensures var family := [Range(0, 100), Range(5, 6)];
            SortedRanges(family) && InSomeRange(family, 50) && !Contains(family, 50)
  {
    var family := [Range(0, 100), Range(5, 6)];
    assert family[0].from <= 50 <= family[0].to;
    assert BisectRanges(family, 50) == 2;
  }

  // ---- rules ----

  type Pattern = seq<byte>
  type Search = (Pattern, seq<byte>) -> bool

  datatype Rule =
    | Default(trie: Option<SuccinctTrie>, keywords: seq<seq<byte>>, regexes: seq<Pattern>,
              ranges: map<nat, seq<Range>>, invert: bool, unsupported: seq<string>)
    | Logical(isAnd: bool, rules: seq<Rule>, invert: bool)

  /** The tries code trees and the families are sorted, as `_read_ip_ranges` leaves them. */
  ghost predicate WellFormed(r: Rule) {
    match r
    case Default(trie, _, _, ranges, _, _) =>
      && (trie.Some? ==> exists l: Layout :: trie.value.Codes(l))
      && (forall v <- ranges.Keys :: SortedRanges(ranges[v]))
    case Logical(_, rules, _) => forall r <- rules :: WellFormed(r)
  }

  ghost function TreeOf(t: SuccinctTrie): Tree
    requires exists l: Layout :: t.Codes(l)
  {
    var l: Layout :| t.Codes(l);
    l.nodes[0]
  }

  predicate OccursAt(k: seq<byte>, s: seq<byte>, i: nat) {
    i + |k| <= |s| && s[i..i + |k|] == k
  }

  predicate Substring(k: seq<byte>, s: seq<byte>) {
    exists i :: 0 <= i <= |s| && OccursAt(k, s, i)
  }

  predicate HasItems(r: Rule)
    requires r.Default?
  {
    r.trie.Some? || r.keywords != [] || r.regexes != [] || r.ranges != map[]
  }

  ghost predicate DomainHits(r: Rule, search: Search, domain: seq<byte>)
    requires WellFormed(r) && r.Default?
  {
    && domain != []
    && (|| (r.trie.Some? && Walk(TreeOf(r.trie.value), Reverse(domain)))
        || (exists k <- r.keywords :: Substring(k, domain))
        || (exists p <- r.regexes :: search(p, domain)))
  }

  predicate IpHits(ranges: map<nat, seq<Range>>, ip: Ip)
    requires forall v <- ranges.Keys :: SortedRanges(ranges[v])
  {
    ip.version in ranges && Contains(ranges[ip.version], ip.value)
  }

  /** The verdict of a rule that can be evaluated: any hit of the OR-ed items, then the invert flag. */
  ghost predicate DefaultVerdict(r: Rule, search: Search, domain: seq<byte>, ips: seq<Ip>)
    requires WellFormed(r) && r.Default?
  {
    if !HasItems(r) then !r.invert
    else (DomainHits(r, search, domain) || exists ip <- ips :: IpHits(r.ranges, ip)) != r.invert
  }

  /** Verdicts with `judge` deciding the rules that carry an unsupported constraint. */
  ghost predicate Verdict(r: Rule, judge: Rule -> bool, search: Search, domain: seq<byte>, ips: seq<Ip>)
    requires WellFormed(r)
  {
    match r
    case Default(_, _, _, _, _, unsupported) =>
      if unsupported != [] then judge(r) else DefaultVerdict(r, search, domain, ips)
    case Logical(isAnd, rules, invert) =>
      (if isAnd then forall s <- rules :: Verdict(s, judge, search, domain, ips)
       else exists s <- rules :: Verdict(s, judge, search, domain, ips)) != invert
  }

  /** What the code computes: a rule with an unsupported constraint does not match. */
  ghost predicate Means(r: Rule, search: Search, domain: seq<byte>, ips: seq<Ip>)
    requires WellFormed(r)
  {
    Verdict(r, _ => false, search, domain, ips)
  }

  // ---- what that comes to, told over the records' own fields ----

  /** The rule names no domain, keyword, pattern or address at all. */
  predicate Unconditional(r: Rule)
    requires r.Default?
  {
    r.trie == None && |r.keywords| == 0 && |r.regexes| == 0 && |r.ranges| == 0
  }

  /** As the format's writer leaves a rule-set: markers end their entries, the ranges of a family are disjoint. */
  ghost predicate Written(r: Rule)
    requires WellFormed(r)
  {
    match r
    case Default(trie, _, _, ranges, _, _) =>
      && (trie.Some? ==> WellMarked(TreeOf(trie.value)))
      && (forall v <- ranges.Keys ::
            forall i, j :: 0 <= i < j < |ranges[v]| ==> ranges[v][i].to < ranges[v][j].from)
    case Logical(_, rules, _) => forall s <- rules :: Written(s)
  }

  /** A stored domain, or one that lies under a stored suffix. */
  ghost predicate StoredDomainHits(r: Rule, domain: seq<byte>)
    requires WellFormed(r) && r.Default? && r.trie.Some?
  {
    exists e: DomainEntry :: PlainEntry(e) && Stores(TreeOf(r.trie.value), EntryKey(e)) && DomainMatches(e, domain)
  }

  ghost predicate KeywordHits(r: Rule, domain: seq<byte>)
    requires r.Default?
  {
    exists k, before, after :: k in r.keywords && domain == before + k + after
  }

  ghost predicate PatternHits(r: Rule, search: Search, domain: seq<byte>)
    requires r.Default?
  {
    exists i :: 0 <= i < |r.regexes| && search(r.regexes[i], domain)
  }

  ghost predicate RangeHits(r: Rule, ips: seq<Ip>)
    requires r.Default?
  {
    exists i :: 0 <= i < |ips| && ips[i].version in r.ranges
      && InSomeRange(r.ranges[ips[i].version], ips[i].value)
  }

  /** Anything the rule lists names the destination; an empty domain names nothing. */
  ghost predicate SomethingHits(r: Rule, search: Search, domain: seq<byte>, ips: seq<Ip>)
    requires WellFormed(r) && r.Default?
  {
    || (domain != [] && r.trie.Some? && StoredDomainHits(r, domain))
    || (domain != [] && KeywordHits(r, domain))
    || (domain != [] && PatternHits(r, search, domain))
    || RangeHits(r, ips)
  }

  /** The documented meaning of a rule. */
  ghost predicate Denotes(r: Rule, search: Search, domain: seq<byte>, ips: seq<Ip>)
    requires WellFormed(r)
  {
    match r
    case Default(_, _, _, _, invert, unsupported) =>
      && unsupported == []
      && (if Unconditional(r) then !invert
          else if invert then !SomethingHits(r, search, domain, ips)
          else SomethingHits(r, search, domain, ips))
    case Logical(true, rules, false) => forall i :: 0 <= i < |rules| ==> Denotes(rules[i], search, domain, ips)
    case Logical(true, rules, true) => exists i :: 0 <= i < |rules| && !Denotes(rules[i], search, domain, ips)
    case Logical(false, rules, false) => exists i :: 0 <= i < |rules| && Denotes(rules[i], search, domain, ips)
    case Logical(false, rules, true) => forall i :: 0 <= i < |rules| ==> !Denotes(rules[i], search, domain, ips)
  }

  lemma {:induction false} SubstringIsInfix(k: seq<byte>, s: seq<byte>)
    ensures Substring(k, s) <==> exists before, after :: s == before + k + after
  {
    if Substring(k, s) {
      var i :| 0 <= i <= |s| && OccursAt(k, s, i);
      assert s == s[..i] + k + s[i + |k|..];
    }
    if before, after :| s == before + k + after {
      assert OccursAt(k, s, |before|);
    }
  }

  lemma {:induction false} KeywordsMean(r: Rule, domain: seq<byte>)
    requires r.Default?
    ensures (exists k <- r.keywords :: Substring(k, domain)) <==> KeywordHits(r, domain)
  {
    forall k | k in r.keywords
      ensures Substring(k, domain) <==> exists before, after :: domain == before + k + after
    {
      SubstringIsInfix(k, domain);
    }
  }

  lemma {:induction false} PatternsMean(r: Rule, search: Search, domain: seq<byte>)
    requires r.Default?
    ensures (exists p <- r.regexes :: search(p, domain)) <==> PatternHits(r, search, domain)
  {
    if PatternHits(r, search, domain) {
      var i :| 0 <= i < |r.regexes| && search(r.regexes[i], domain);
      assert r.regexes[i] in r.regexes;
    }
  }

  lemma {:induction false} StoredDomainsMean(r: Rule, domain: seq<byte>)
    requires WellFormed(r) && r.Default? && Written(r) && NoMarkers(domain) && r.trie.Some?
    ensures Walk(TreeOf(r.trie.value), Reverse(domain)) <==> StoredDomainHits(r, domain)
  {
    WalkMeansDomainMatch(TreeOf(r.trie.value), domain);
  }

  lemma {:induction false} DomainsMean(r: Rule, search: Search, domain: seq<byte>)
    requires WellFormed(r) && r.Default? && Written(r) && NoMarkers(domain) && domain != []
    ensures DomainHits(r, search, domain)
            <==> || (r.trie.Some? && StoredDomainHits(r, domain))
                 || KeywordHits(r, domain) || PatternHits(r, search, domain)
  {
    PatternsMean(r, search, domain);
    KeywordsMean(r, domain);
    if r.trie.Some? {
      StoredDomainsMean(r, domain);
    }
  }

  lemma {:induction false} RangesMean(r: Rule, ips: seq<Ip>)
    requires WellFormed(r) && r.Default? && Written(r)
    ensures (exists ip <- ips :: IpHits(r.ranges, ip)) <==> RangeHits(r, ips)
  {
    forall i | 0 <= i < |ips|
      ensures IpHits(r.ranges, ips[i])
              <==> ips[i].version in r.ranges && InSomeRange(r.ranges[ips[i].version], ips[i].value)
    {
      if ips[i].version in r.ranges {
        DisjointRangesHideNothing(r.ranges[ips[i].version]);
      }
    }
  }

  lemma {:induction false} DefaultDenotes(r: Rule, search: Search, domain: seq<byte>, ips: seq<Ip>)
    requires WellFormed(r) && r.Default? && Written(r) && NoMarkers(domain)
    ensures Means(r, search, domain, ips) <==> Denotes(r, search, domain, ips)
  {
    if domain != [] {
      DomainsMean(r, search, domain);
    }
    RangesMean(r, ips);
    assert HasItems(r) <==> !Unconditional(r);
  }

  /** What the code computes is what a rule means, however deeply rules are nested and inverted. */
  lemma {:induction false} MeansDenotes(r: Rule, search: Search, domain: seq<byte>, ips: seq<Ip>)
    requires WellFormed(r) && Written(r) && NoMarkers(domain)
    ensures Means(r, search, domain, ips) <==> Denotes(r, search, domain, ips)
  {
    match r
    case Default(_, _, _, _, _, _) => DefaultDenotes(r, search, domain, ips);
    case Logical(_, rules, _) =>
      forall i | 0 <= i < |rules|
        ensures Means(rules[i], search, domain, ips) <==> Denotes(rules[i], search, domain, ips)
      {
        MeansDenotes(rules[i], search, domain, ips);
      }
      NestedMeans(r, search, domain, ips);
  }

  lemma {:induction false} NestedMeans(r: Rule, search: Search, domain: seq<byte>, ips: seq<Ip>)
    requires WellFormed(r) && r.Logical?
    ensures Means(r, search, domain, ips)
            <==> (if r.isAnd then forall i :: 0 <= i < |r.rules| ==> Means(r.rules[i], search, domain, ips)
                  else exists i :: 0 <= i < |r.rules| && Means(r.rules[i], search, domain, ips)) != r.invert
  {
    forall s | s in r.rules
      ensures Verdict(s, _ => false, search, domain, ips) == Means(s, search, domain, ips)
    {
    }
  }

  // ---- the code ----

  /** `_DefaultRule.match` */
  method MatchDefault(r: Rule, search: Search, domain: seq<byte>, ips: seq<Ip>) returns (b: bool)
    requires WellFormed(r) && r.Default?
    ensures b == Means(r, search, domain, ips)
    ensures Written(r) && NoMarkers(domain) ==> b == Denotes(r, search, domain, ips)
  {
    if Written(r) && NoMarkers(domain) {
      DefaultDenotes(r, search, domain, ips);
    }
    if r.unsupported != [] {
      return false;
    }
    if !HasItems(r) {
      return !r.invert;
    }
    var matched := false;
    if domain != [] {
      if r.trie.Some? {
        ghost var l: Layout :| r.trie.value.Codes(l) && l.nodes[0] == TreeOf(r.trie.value);
        var found := r.trie.value.MatchDomain(domain, l);
        matched := found.value;
      }
      if !matched {
        matched := exists k <- r.keywords :: Substring(k, domain);
      }
      if !matched {
        matched := exists p <- r.regexes :: search(p, domain);
      }
    }
    if !matched && ips != [] && r.ranges != map[] {
      matched := exists ip <- ips :: IpHits(r.ranges, ip);
    }
    return matched != r.invert;
  }

  /** `match` of either rule kind; the nested verdicts are consumed lazily as `all`/`any` do. */
  method Match(r: Rule, search: Search, domain: seq<byte>, ips: seq<Ip>) returns (b: bool)
    requires WellFormed(r)
    ensures b == Means(r, search, domain, ips)
    ensures Written(r) && NoMarkers(domain) ==> b == Denotes(r, search, domain, ips)
    decreases r
  {
    if Written(r) && NoMarkers(domain) {
      MeansDenotes(r, search, domain, ips);
    }
    match r
    case Default(_, _, _, _, _, _) =>
      b := MatchDefault(r, search, domain, ips);
    case Logical(isAnd, rules, invert) =>
      var i := 0;
      var decided := false;
      while i < |rules| && !decided
        invariant 0 <= i <= |rules|
        invariant !decided ==> forall m :: 0 <= m < i ==> Means(rules[m], search, domain, ips) == isAnd
        invariant decided ==> exists m :: 0 <= m < |rules| && Means(rules[m], search, domain, ips) != isAnd
        decreases |rules| - i, !decided
      {
        var v := Match(rules[i], search, domain, ips);
        if v != isAnd {
          decided := true;
        } else {
          i := i + 1;
        }
      }
      b := (isAnd != decided) != invert;
  }

  /** `RuleSet.match` */
  method MatchRuleSet(rules: seq<Rule>, search: Search, domain: seq<byte>, ips: seq<Ip>) returns (b: bool)
    requires forall r <- rules :: WellFormed(r)
    ensures b == exists r <- rules :: Means(r, search, domain, ips)
    ensures NoMarkers(domain) && (forall r <- rules :: Written(r)) ==>
              b == exists i :: 0 <= i < |rules| && Denotes(rules[i], search, domain, ips)
  {
    if NoMarkers(domain) && forall r <- rules :: Written(r) {
      forall i | 0 <= i < |rules|
        ensures Means(rules[i], search, domain, ips) == Denotes(rules[i], search, domain, ips)
      {
        MeansDenotes(rules[i], search, domain, ips);
      }
    }
    for i := 0 to |rules|
      invariant forall m :: 0 <= m < i ==> !Means(rules[m], search, domain, ips)
    {
      var v := Match(rules[i], search, domain, ips);
      if v {
        return true;
      }
    }
    return false;
  }

  // ---- is "unsupported means no match" conservative? ----

  /** Under an inverted logical rule it invents matches: such a rule matches every destination, even one the real
      constraint rules out. */
  lemma {:induction false} InvertedUnsupportedMatches(search: Search, domain: seq<byte>, ips: seq<Ip>)
    ensures var r := Logical(false, [Default(None, [], [], map[], false, ["port"])], true);
            && WellFormed(r)
            && Means(r, search, domain, ips)
            && !Verdict(r, _ => true, search, domain, ips)
  {
    var d := Default(None, [], [], map[], false, ["port"]);
    var r := Logical(false, [d], true);
    assert d in r.rules && WellFormed(d);
    assert Verdict(d, _ => true, search, domain, ips) && !Means(d, search, domain, ips);
    assert forall s <- r.rules :: s == d;
  }
}
