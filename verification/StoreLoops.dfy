/** The loops inside the store's transactions, each proved to compute what the operation's specification says: claiming
    ports, rewriting and moving rows, upserting a bundle's channels. */
module StoreLoops {
  import opened Common
  import opened Routes
  import opened State
  import opened RulesetOps
  import opened RulesetMoves
  import opened RulesetOrder
  import opened Setup
  import opened Ports
  import opened ChannelIds
  import opened Operations
  import opened SyncRules
  import Sync = SyncSetup

  // ---- numbering new rows ----

  /** `_next_rule_id` over the rows so far numbers fresh rows consecutively. */
  lemma {:induction false} NextIdsAreConsecutive(rules: seq<Rule>, rows: seq<Rule>)
    requires forall i :: 0 <= i < |rows| ==> rows[i].id == Minted(MaxRule(rules) + 1 + i)
    ensures MaxRule(rules + rows) == MaxRule(rules) + |rows|
  {
    if rows == [] {
      assert rules + rows == rules;
    } else {
      NextIdsAreConsecutive(rules, rows[..|rows| - 1]);
      assert (rules + rows)[..|rules + rows| - 1] == rules + rows[..|rows| - 1];
    }
  }

  /** `_next_rule_id` */
  method NextRuleId(rules: seq<Rule>) returns (id: Id)
    ensures id == Minted(MaxRule(rules) + 1)
  {
    var top: nat := 0;
    for i := 0 to |rules|
      invariant top == MaxRule(rules[..i])
    {
      assert rules[..i + 1][..i] == rules[..i];
      if Num(rules[i].id) > top {
        top := Num(rules[i].id);
      }
    }
    assert rules[..|rules|] == rules;
    id := Minted(top + 1);
  }

  /** `_next_ruleset_id` */
  method NextRulesetId(rules: seq<Rule>) returns (id: Id)
    ensures id == Minted(MaxRuleset(rules) + 1)
  {
    var top: nat := 0;
    for i := 0 to |rules|
      invariant top == MaxRuleset(rules[..i])
    {
      assert rules[..i + 1][..i] == rules[..i];
      if Num(rules[i].ruleset) > top {
        top := Num(rules[i].ruleset);
      }
    }
    assert rules[..|rules|] == rules;
    id := Minted(top + 1);
  }

  ghost predicate Numbered(created: seq<Rule>, base: nat, matchers: seq<Matcher>, target: Target, rs: Id,
                           name: string) {
    && |created| <= |matchers|
    && forall k :: 0 <= k < |created| ==> created[k] == Rule(Minted(base + 1 + k), matchers[k], target, rs, name, false)
  }

  lemma {:induction false} NumberedIsNewRows(created: seq<Rule>, base: nat, matchers: seq<Matcher>, target: Target,
                                             rs: Id, name: string)
    requires Numbered(created, base, matchers, target, rs, name) && |created| == |matchers|
    ensures created == NewRows(base, matchers, target, rs, name, false)
  {
  }

  /** `_next_rule_id(rules + created)` */
  method NextIdAfter(rules: seq<Rule>, created: seq<Rule>) returns (id: Id)
    requires forall i :: 0 <= i < |created| ==> created[i].id == Minted(MaxRule(rules) + 1 + i)
    ensures id == Minted(MaxRule(rules) + 1 + |created|)
  {
    NextIdsAreConsecutive(rules, created);
    id := NextRuleId(rules + created);
  }

  lemma {:induction false} NumberOneMore(created: seq<Rule>, base: nat, matchers: seq<Matcher>, target: Target, rs: Id,
                                         name: string)
    requires Numbered(created, base, matchers, target, rs, name) && |created| < |matchers|
    ensures Numbered(created + [Rule(Minted(base + 1 + |created|), matchers[|created|], target, rs, name, false)],
                     base, matchers, target, rs, name)
  {
  }

  lemma {:induction false} SplicedIn(before: seq<Rule>, rows: seq<Rule>, after: seq<Rule>, rs: Id)
    requires rows != [] && rows[0].ruleset == rs
    ensures HasRuleset(before + rows + after, rs)
  {
    assert (before + rows + after)[|before|] == rows[0];
  }

  /** The loop that mints rows one at a time against `rules` plus the rows created so far. */
  method MintRows(rules: seq<Rule>, matchers: seq<Matcher>, target: Target, rs: Id, name: string)
      returns (created: seq<Rule>)
    ensures created == NewRows(MaxRule(rules), matchers, target, rs, name, false)
  {
    created := [];
    for i := 0 to |matchers|
      invariant |created| == i && Numbered(created, MaxRule(rules), matchers, target, rs, name)
    {
      var id := NextIdAfter(rules, created);
      NumberOneMore(created, MaxRule(rules), matchers, target, rs, name);
      created := created + [Rule(id, matchers[i], target, rs, name, false)];
    }
    NumberedIsNewRows(created, MaxRule(rules), matchers, target, rs, name);
  }

  /** A new ruleset behind all others, under the next ruleset id. */
  method AppendRuleset(rules: seq<Rule>, name: string, target: Target, matchers: seq<Matcher>) returns (out: seq<Rule>)
    ensures out == CreateRows(rules, name, target, matchers)
  {
    var rs := NextRulesetId(rules);
    var created := MintRows(rules, matchers, target, rs, name);
    out := rules + created;
  }

  // ---- matching bundle rulesets with managed blocks ----

  /** After the first `n` entries: a block is matched exactly when the entries so far reach its ordinal. */
  ghost predicate MatchedUpTo(bs: seq<RulesetBlock>, ds: seq<RulesetSpec>, matched: map<Id, nat>, n: nat)
    requires n <= |ds| && NonEmptyBlocks(bs)
  {
    forall j :: 0 <= j < |bs| ==>
      && (bs[j].id in matched <==>
            bs[j].AnyManaged() && ManagedNamed(bs, bs[j].Name(), j) < SpecsNamed(ds, bs[j].Name(), n))
      && (bs[j].id in matched
          ==> NthSpec(ds, bs[j].Name(), ManagedNamed(bs, bs[j].Name(), j), n) == Some(matched[bs[j].id]))
  }

  ghost predicate DistinctBlockIds(bs: seq<RulesetBlock>) {
    forall a, b :: 0 <= a < b < |bs| ==> bs[a].id != bs[b].id
  }

  ghost predicate ClaimedUpTo(bs: seq<RulesetBlock>, ds: seq<RulesetSpec>, claimed: set<nat>, n: nat)
    requires n <= |ds| && NonEmptyBlocks(bs)
  {
    forall i :: i in claimed <==> 0 <= i < n && Claimed(bs, ds, i)
  }

  lemma {:induction false} ManagedNamedStrict(bs: seq<RulesetBlock>, x: string, i: nat, j: nat)
    requires NonEmptyBlocks(bs) && i <= j <= |bs|
    ensures ManagedNamed(bs, x, i) <= ManagedNamed(bs, x, j)
    ensures i < j && bs[i].AnyManaged() && bs[i].Name() == x ==> ManagedNamed(bs, x, i) < ManagedNamed(bs, x, j)
  {
    if i < j {
      ManagedNamedStrict(bs, x, i, j - 1);
    }
  }

  /** Entry `i` takes block `j`, the first unmatched managed block of its name. */
  lemma {:induction false} MatchStep(bs: seq<RulesetBlock>, ds: seq<RulesetSpec>, matched: map<Id, nat>, i: nat, j: nat)
    requires NonEmptyBlocks(bs) && i < |ds| && j < |bs| && MatchedUpTo(bs, ds, matched, i)
    requires DistinctBlockIds(bs)
    requires bs[j].AnyManaged() && bs[j].Name() == ds[i].name
             && ManagedNamed(bs, ds[i].name, j) == SpecsNamed(ds, ds[i].name, i)
    ensures MatchedUpTo(bs, ds, matched[bs[j].id := i], i + 1)
  {
    forall k | 0 <= k < |bs|
      ensures (bs[k].id in matched[bs[j].id := i]
               <==> bs[k].AnyManaged() && ManagedNamed(bs, bs[k].Name(), k) < SpecsNamed(ds, bs[k].Name(), i + 1))
      ensures bs[k].id in matched[bs[j].id := i] ==>
                NthSpec(ds, bs[k].Name(), ManagedNamed(bs, bs[k].Name(), k), i + 1)
                    == Some(matched[bs[j].id := i][bs[k].id])
    {
      if k < j {
        ManagedNamedStrict(bs, bs[k].Name(), k, j);
      } else if j < k {
        ManagedNamedStrict(bs, bs[j].Name(), j, k);
      }
    }
  }

  lemma {:induction false} NoMatchStep(bs: seq<RulesetBlock>, ds: seq<RulesetSpec>, matched: map<Id, nat>, i: nat)
    requires NonEmptyBlocks(bs) && i < |ds| && MatchedUpTo(bs, ds, matched, i)
    requires ManagedNamed(bs, ds[i].name, |bs|) <= SpecsNamed(ds, ds[i].name, i)
    ensures MatchedUpTo(bs, ds, matched, i + 1)
  {
    forall k | 0 <= k < |bs|
      ensures (bs[k].id in matched
               <==> bs[k].AnyManaged() && ManagedNamed(bs, bs[k].Name(), k) < SpecsNamed(ds, bs[k].Name(), i + 1))
      ensures bs[k].id in matched ==>
                NthSpec(ds, bs[k].Name(), ManagedNamed(bs, bs[k].Name(), k), i + 1) == Some(matched[bs[k].id])
    {
      ManagedNamedStrict(bs, bs[k].Name(), k, |bs|);
    }
  }

  predicate Free(b: RulesetBlock, matched: map<Id, nat>, x: string)
    requires b.rules != []
  {
    b.id !in matched && b.AnyManaged() && b.Name() == x
  }

  /** The inner loop: the first block still free for the name. */
  method FirstFree(bs: seq<RulesetBlock>, matched: map<Id, nat>, x: string) returns (j: nat)
    requires NonEmptyBlocks(bs)
    ensures j <= |bs| && (j < |bs| ==> Free(bs[j], matched, x))
    ensures forall k :: 0 <= k < j ==> !Free(bs[k], matched, x)
  {
    j := 0;
    while j < |bs| && !Free(bs[j], matched, x)
      invariant j <= |bs| && forall k :: 0 <= k < j ==> !Free(bs[k], matched, x)
    {
      j := j + 1;
    }
  }

  lemma {:induction false} NoneFreeBefore(bs: seq<RulesetBlock>, ds: seq<RulesetSpec>, matched: map<Id, nat>, i: nat,
                                          j: nat)
    requires NonEmptyBlocks(bs) && i < |ds| && j <= |bs| && MatchedUpTo(bs, ds, matched, i)
    requires forall k :: 0 <= k < j ==> !Free(bs[k], matched, ds[i].name)
    ensures ManagedNamed(bs, ds[i].name, j) <= SpecsNamed(ds, ds[i].name, i)
  {
    if j > 0 {
      NoneFreeBefore(bs, ds, matched, i, j - 1);
      assert !Free(bs[j - 1], matched, ds[i].name);
    }
  }

  lemma {:induction false} ClaimStep(bs: seq<RulesetBlock>, ds: seq<RulesetSpec>, claimed: set<nat>, i: nat, j: nat)
    requires NonEmptyBlocks(bs) && i < |ds| && j < |bs| && ClaimedUpTo(bs, ds, claimed, i)
    requires bs[j].AnyManaged() && bs[j].Name() == ds[i].name
             && ManagedNamed(bs, ds[i].name, j) == SpecsNamed(ds, ds[i].name, i)
    ensures ClaimedUpTo(bs, ds, claimed + {i}, i + 1)
  {
    ManagedNamedStrict(bs, ds[i].name, j, |bs|);
  }

  lemma {:induction false} NoClaimStep(bs: seq<RulesetBlock>, ds: seq<RulesetSpec>, claimed: set<nat>, i: nat)
    requires NonEmptyBlocks(bs) && i < |ds| && ClaimedUpTo(bs, ds, claimed, i)
    requires ManagedNamed(bs, ds[i].name, |bs|) <= SpecsNamed(ds, ds[i].name, i)
    ensures ClaimedUpTo(bs, ds, claimed, i + 1)
  {
  }

  /** Entry `i`: takes the first free block of its name, if there is one. */
  method MatchOne(bs: seq<RulesetBlock>, ds: seq<RulesetSpec>, before: map<Id, nat>, claimedBefore: set<nat>, i: nat)
    returns (matched: map<Id, nat>, claimed: set<nat>)
    requires NonEmptyBlocks(bs) && DistinctBlockIds(bs) && i < |ds|
    requires MatchedUpTo(bs, ds, before, i) && ClaimedUpTo(bs, ds, claimedBefore, i)
    ensures MatchedUpTo(bs, ds, matched, i + 1) && ClaimedUpTo(bs, ds, claimed, i + 1)
  {
    var j := FirstFree(bs, before, ds[i].name);
    NoneFreeBefore(bs, ds, before, i, j);
    matched, claimed := before, claimedBefore;
    if j < |bs| {
      MatchStep(bs, ds, before, i, j);
      ClaimStep(bs, ds, claimedBefore, i, j);
      matched, claimed := matched[bs[j].id := i], claimed + {i};
    } else {
      NoMatchStep(bs, ds, before, i);
      NoClaimStep(bs, ds, claimedBefore, i);
    }
  }

  /** The greedy nested loop pairs the k-th managed block of a name with the k-th entry of that name. */
  method MatchBlocks(bs: seq<RulesetBlock>, ds: seq<RulesetSpec>) returns (matched: map<Id, nat>, claimed: set<nat>)
    requires NonEmptyBlocks(bs) && DistinctBlockIds(bs)
    ensures forall j :: 0 <= j < |bs| ==>
              MatchOf(bs, ds, j) == if bs[j].id in matched then Some(matched[bs[j].id]) else None
    ensures forall i :: i in claimed <==> 0 <= i < |ds| && Claimed(bs, ds, i)
  {
    matched, claimed := map[], {};
    for i := 0 to |ds|
      invariant MatchedUpTo(bs, ds, matched, i) && ClaimedUpTo(bs, ds, claimed, i)
    {
      matched, claimed := MatchOne(bs, ds, matched, claimed, i);
    }
    MatchedIsMatchOf(bs, ds, matched);
  }

  lemma {:induction false} MatchedIsMatchOf(bs: seq<RulesetBlock>, ds: seq<RulesetSpec>, matched: map<Id, nat>)
    requires NonEmptyBlocks(bs) && MatchedUpTo(bs, ds, matched, |ds|)
    ensures forall j :: 0 <= j < |bs| ==>
              MatchOf(bs, ds, j) == if bs[j].id in matched then Some(matched[bs[j].id]) else None
  {
  }

  // ---- claimed ports ----

  datatype Holder = ByChannel(ref: Ref) | ByRouter

  /** Each claimed port maps to its one claimant. */
  ghost predicate HoldersOf(used: map<nat, Holder>, channels: map<Ref, Channel>, visited: set<Ref>) {
    && (forall p <- used.Keys :: used[p].ByChannel? && used[p].ref in visited && used[p].ref in channels
                                 && channels[used[p].ref].port == p && p != 0)
    && (forall a <- visited :: a in channels && channels[a].port != 0 ==> channels[a].port in used)
  }

  lemma {:induction false} HoldersNext(used: map<nat, Holder>, channels: map<Ref, Channel>, visited: set<Ref>, a: Ref)
    requires HoldersOf(used, channels, visited) && a in channels
    ensures HoldersOf(if channels[a].port != 0 then used[channels[a].port := ByChannel(a)] else used, channels,
                        visited + {a})
  {
  }

  lemma {:induction false} AllHolders(used: map<nat, Holder>, channels: map<Ref, Channel>, router: Router)
    requires HoldersOf(used, channels, channels.Keys)
    ensures used.Keys == UsedPorts(channels, router.(port := 0))
    ensures DistinctPorts(channels, router) ==>
              forall a <- channels.Keys :: channels[a].port != 0 ==> used[channels[a].port] == ByChannel(a)
  {
    if DistinctPorts(channels, router) {
      forall a <- channels.Keys | channels[a].port != 0 ensures used[channels[a].port] == ByChannel(a) {
        assert used[channels[a].port].ref in channels;
      }
    }
  }

  method ChannelHolders(channels: map<Ref, Channel>) returns (used: map<nat, Holder>)
    ensures HoldersOf(used, channels, channels.Keys)
  {
    used := map[];
    var done: set<Ref> := {};
    while done != channels.Keys
      invariant done <= channels.Keys && HoldersOf(used, channels, done)
      decreases |channels.Keys - done|
    {
      var a :| a in channels.Keys - done;
      HoldersNext(used, channels, done, a);
      OneLess(channels.Keys, done, a);
      if channels[a].port != 0 {
        used := used[channels[a].port := ByChannel(a)];
      }
      done := done + {a};
    }
  }

  lemma {:induction false} OneLess(all: set<Ref>, done: set<Ref>, a: Ref)
    requires a in all - done
    ensures |all - (done + {a})| < |all - done|
  {
    assert all - done == (all - (done + {a})) + {a};
  }

  lemma {:induction false} WithRouter(channels: map<Ref, Channel>, router: Router)
    ensures UsedPorts(channels, router)
            == UsedPorts(channels, router.(port := 0)) + (if router.port != 0 then {router.port} else {})
  {
  }

  /** `_used_ports`: with duplicate ports the last claimant met is the one on record. */
  method UsedPortHolders(channels: map<Ref, Channel>, router: Router) returns (used: map<nat, Holder>)
    ensures used.Keys == UsedPorts(channels, router)
    ensures forall p <- used.Keys :: Holds(used[p], p, channels, router)
    ensures router.port != 0 ==> used[router.port] == ByRouter
    ensures DistinctPorts(channels, router) ==>
              forall a <- channels.Keys :: channels[a].port != 0 ==> used[channels[a].port] == ByChannel(a)
  {
    used := ChannelHolders(channels);
    AllHolders(used, channels, router);
    WithRouter(channels, router);
    if router.port != 0 {
      used := used[router.port := ByRouter];
    }
  }

  predicate Holds(h: Holder, port: nat, channels: map<Ref, Channel>, router: Router) {
    match h
    case ByRouter => router.port == port
    case ByChannel(a) => a in channels && channels[a].port == port
  }

  /** `_claim_port`. A port nobody else holds is always granted. One that somebody else holds is refused, except that
      in a file with duplicate ports the caller's own claim may hide the other one. */
  method ClaimPort(channels: map<Ref, Channel>, router: Router, port: nat, exclude: Ref) returns (ok: bool)
    ensures ClaimOk(channels, router, port, exclude) ==> ok
    ensures ok && !ClaimOk(channels, router, port, exclude) ==>
              exclude in channels && channels[exclude].port == port && !DistinctPorts(channels, router)
  {
    if !ValidPort(port) {
      return false;
    }
    var used := UsedPortHolders(channels, router);
    ok := port !in used || used[port] == ByChannel(exclude);
    OthersHold(channels, router, used, port, exclude);
  }

  lemma {:induction false} OthersHold(channels: map<Ref, Channel>, router: Router, used: map<nat, Holder>, port: nat,
                                      exclude: Ref)
    requires used.Keys == UsedPorts(channels, router) && forall p <- used.Keys :: Holds(used[p], p, channels, router)
    ensures port in used && used[port] != ByChannel(exclude) ==> port in OtherPorts(channels, router, exclude)
    ensures port in OtherPorts(channels, router, exclude) ==> port in used
  {
    var others := channels - {exclude};
    if port in used && used[port] != ByChannel(exclude) && used[port].ByChannel? {
      var a := used[port].ref;
      assert a in others && others[a].port == port;
    }
    if port in OtherPorts(channels, router, exclude) && port != router.port {
      var a :| a in others && others[a].port == port;
      assert a in channels && channels[a].port == port;
    }
  }

  // ---- rows ----

  lemma {:induction false} FilterNext(p: Rule -> bool, rules: seq<Rule>, i: nat)
    requires i < |rules|
    ensures Filter(p, rules[..i + 1]) == Filter(p, rules[..i]) + (if p(rules[i]) then [rules[i]] else [])
  {
    assert rules[..i + 1] == rules[..i] + [rules[i]];
    FilterStep(p, rules[..i], rules[i]);
  }

  function InRuleset(rs: Id): Rule -> bool {
    (r: Rule) => r.ruleset == rs
  }

  /** Splitting off one ruleset's rows. */
  method TakeRuleset(rules: seq<Rule>, rs: Id) returns (kept: seq<Rule>, removed: seq<Rule>)
    ensures kept == Without(rules, rs) && removed == Filter(InRuleset(rs), rules)
    ensures removed != [] <==> HasRuleset(rules, rs)
  {
    kept, removed := [], [];
    for i := 0 to |rules|
      invariant kept == Without(rules[..i], rs) && removed == Filter(InRuleset(rs), rules[..i])
      invariant removed != [] <==> exists k :: 0 <= k < i && rules[k].ruleset == rs
    {
      FilterNext(Outside(rs), rules, i);
      FilterNext(InRuleset(rs), rules, i);
      if rules[i].ruleset == rs {
        removed := removed + [rules[i]];
      } else {
        kept := kept + [rules[i]];
      }
    }
    assert rules[..|rules|] == rules;
  }

  function Named(ids: set<Id>): Rule -> bool {
    (r: Rule) => r.id in ids
  }

  /** Splitting off the rows with the given ids. */
  method TakeRows(rules: seq<Rule>, wanted: set<Id>) returns (kept: seq<Rule>, removed: seq<Rule>)
    ensures kept == WithoutIds(rules, wanted) && removed == Filter(Named(wanted), rules)
    ensures |kept| + |removed| == |rules|
            && forall i :: 0 <= i < |removed| ==> removed[i] in rules && removed[i].id in wanted
  {
    kept, removed := [], [];
    for i := 0 to |rules|
      invariant kept == WithoutIds(rules[..i], wanted) && |kept| + |removed| == i
      invariant removed == Filter(Named(wanted), rules[..i])
      invariant forall k :: 0 <= k < |removed| ==> removed[k] in rules && removed[k].id in wanted
    {
      FilterNext(NotNamed(wanted), rules, i);
      FilterNext(Named(wanted), rules, i);
      if rules[i].id in wanted {
        removed := removed + [rules[i]];
      } else {
        kept := kept + [rules[i]];
      }
    }
    assert rules[..|rules|] == rules;
  }

  /** Rewriting the target of one ruleset's rows in place. */
  method RetargetInPlace(before: seq<Rule>, rs: Id, target: Target) returns (rules: seq<Rule>, found: bool)
    ensures rules == RetargetRows(before, rs, target) && (found <==> HasRuleset(before, rs))
  {
    rules, found := before, false;
    for i := 0 to |before|
      invariant |rules| == |before|
      invariant forall k :: 0 <= k < |before| ==>
                  rules[k] == if k < i then Retarget(before[k], rs, target) else before[k]
      invariant found <==> exists k :: 0 <= k < i && before[k].ruleset == rs
    {
      if rules[i].ruleset == rs {
        rules := rules[i := rules[i].(target := target)];
        found := true;
      }
    }
  }

  /** Rewriting the display name of one ruleset's rows in place. */
  method RenameInPlace(before: seq<Rule>, rs: Id, name: string) returns (rules: seq<Rule>, found: bool)
    ensures rules == RenameRows(before, rs, name) && (found <==> HasRuleset(before, rs))
  {
    rules, found := before, false;
    for i := 0 to |before|
      invariant |rules| == |before|
      invariant forall k :: 0 <= k < |before| ==> rules[k] == if k < i then Rename(before[k], rs, name) else before[k]
      invariant found <==> exists k :: 0 <= k < i && before[k].ruleset == rs
    {
      if rules[i].ruleset == rs {
        rules := rules[i := rules[i].(name := name)];
        found := true;
      }
    }
  }

  lemma {:induction false} EndOfNext(rules: seq<Rule>, rs: Id, i: nat)
    requires i < |rules|
    ensures EndOf(rules[..i + 1], rs) == if rules[i].ruleset == rs then i + 1 else EndOf(rules[..i], rs)
  {
    assert rules[..i + 1][..i] == rules[..i];
  }

  /** `max(i ...) + 1`, or 0 when the ruleset has no row. */
  method EndOfRuleset(rules: seq<Rule>, rs: Id) returns (end: nat)
    ensures end == EndOf(rules, rs)
  {
    end := 0;
    for i := 0 to |rules|
      invariant end == EndOf(rules[..i], rs)
    {
      EndOfNext(rules, rs, i);
      if rules[i].ruleset == rs {
        end := i + 1;
      }
    }
    assert rules[..|rules|] == rules;
  }

  /** The index of a ruleset's first row. */
  method FirstRow(rules: seq<Rule>, rs: Id) returns (first: nat)
    ensures first == FirstOf(rules, rs)
  {
    first := 0;
    while first < |rules| && rules[first].ruleset != rs
      invariant first <= |rules| && FirstOf(rules, rs) == first + FirstOf(rules[first..], rs)
    {
      first := first + 1;
    }
  }

  /** The rows to move, rewritten to their destination, in the order asked for. */
  method CollectMoved(rules: seq<Rule>, wanted: seq<Id>, rs: Id, name: string, target: Target)
      returns (moved: seq<Rule>)
    requires forall i :: 0 <= i < |wanted| ==> HasId(rules, wanted[i])
    ensures moved == MovedRows(rules, wanted, rs, name, target)
  {
    moved := [];
    for i := 0 to |wanted|
      invariant |moved| == i
      invariant forall k :: 0 <= k < i
                  ==> moved[k] == RowById(rules, wanted[k]).(ruleset := rs, name := name, target := target)
    {
      var row := RowById(rules, wanted[i]);
      row := row.(ruleset := rs);
      row := row.(name := name);
      row := row.(target := target);
      moved := moved + [row];
    }
  }

  // ---- channels ----

  lemma {:induction false} RefSetSnoc(refs: seq<Ref>, a: Ref)
    ensures RefSet(refs + [a]) == RefSet(refs) + {a}
  {
  }

  /** Dropping the named channels one by one; the ones that were there are reported. */
  method DropChannels(before: map<Ref, Channel>, refs: seq<Ref>)
      returns (channels: map<Ref, Channel>, removed: seq<Ref>)
    ensures channels == before - RefSet(refs)
    ensures RefSet(removed) == RefSet(refs) * before.Keys
    ensures forall i, j :: 0 <= i < j < |removed| ==> removed[i] != removed[j]
  {
    channels, removed := before, [];
    for i := 0 to |refs|
      invariant channels == before - RefSet(refs[..i])
      invariant RefSet(removed) == RefSet(refs[..i]) * before.Keys
      invariant forall i, j :: 0 <= i < j < |removed| ==> removed[i] != removed[j]
    {
      assert refs[..i + 1] == refs[..i] + [refs[i]];
      RefSetSnoc(refs[..i], refs[i]);
      if refs[i] in channels {
        RefSetSnoc(removed, refs[i]);
        assert refs[i] !in RefSet(removed);
        channels, removed := channels - {refs[i]}, removed + [refs[i]];
      }
    }
    assert refs[..|refs|] == refs;
  }

  /** Enabling or disabling one by one; only real changes are reported. */
  method ToggleChannels(before: map<Ref, Channel>, refs: seq<Ref>, enabled: bool)
    returns (channels: map<Ref, Channel>, changed: seq<Ref>)
    ensures channels == ToggleAll(before, RefSet(refs), enabled)
    ensures forall a :: a in changed <==> a in refs && a in before && before[a].enabled != enabled
  {
    channels, changed := before, [];
    for i := 0 to |refs|
      invariant channels == ToggleAll(before, RefSet(refs[..i]), enabled)
      invariant forall a :: a in changed <==> a in refs[..i] && a in before && before[a].enabled != enabled
    {
      assert refs[..i + 1] == refs[..i] + [refs[i]];
      var a := refs[i];
      if a in channels && channels[a].enabled != enabled {
        var ch := channels[a];
        if enabled {
          ch := ch.(enabled := true);
        } else {
          ch := ch.(enabled := false);
          ch := ch.(probe := None, reconnect := None);
        }
        channels, changed := channels[a := ch], changed + [a];
      }
    }
    assert refs[..|refs|] == refs;
  }

  /** The channels in `done` that carry a recovery record. */
  ghost function Recovering(before: map<Ref, Channel>, done: set<Ref>): set<Ref> {
    set a | a in before && a in done && before[a].reconnect.Some?
  }

  ghost predicate DroppedIn(before: map<Ref, Channel>, channels: map<Ref, Channel>, done: set<Ref>) {
    && channels.Keys == before.Keys
    && forall a <- before.Keys :: channels[a] == if a in done then before[a].(reconnect := None) else before[a]
  }

  lemma {:induction false} DropOne(before: map<Ref, Channel>, channels: map<Ref, Channel>, done: set<Ref>, a: Ref)
    requires DroppedIn(before, channels, done) && a in before && a !in done
    ensures DroppedIn(before, if channels[a].reconnect.Some? then channels[a := channels[a].(reconnect := None)]
                                else channels, done + {a})
    ensures |Recovering(before, done + {a})|
            == |Recovering(before, done)| + (if channels[a].reconnect.Some? then 1 else 0)
  {
    assert Recovering(before, done + {a})
           == Recovering(before, done) + (if channels[a].reconnect.Some? then {a} else {});
  }

  lemma {:induction false} AllDropped(before: map<Ref, Channel>, channels: map<Ref, Channel>)
    requires DroppedIn(before, channels, before.Keys)
    ensures channels == WithoutRecoveries(before)
    ensures Recovering(before, before.Keys) == set a | a in before && before[a].reconnect.Some?
  {
  }

  /** Dropping every recovery record. */
  method DropRecoveries(before: map<Ref, Channel>) returns (channels: map<Ref, Channel>, cleared: nat)
    ensures channels == WithoutRecoveries(before)
    ensures cleared == |set a | a in before && before[a].reconnect.Some?|
  {
    channels, cleared := before, 0;
    var done: set<Ref> := {};
    assert Recovering(before, {}) == {};
    while done != before.Keys
      invariant done <= before.Keys && DroppedIn(before, channels, done) && cleared == |Recovering(before, done)|
      decreases |before.Keys - done|
    {
      var a :| a in before.Keys - done;
      DropOne(before, channels, done, a);
      OneLess(before.Keys, done, a);
      if channels[a].reconnect.Some? {
        channels, cleared := channels[a := channels[a].(reconnect := None)], cleared + 1;
      }
      done := done + {a};
    }
    AllDropped(before, channels);
  }

  /** The channels of one provider in `done` without their recovery records. */
  ghost predicate ClearedIn(before: map<Ref, Channel>, channels: map<Ref, Channel>, provider: string, done: set<Ref>) {
    && channels.Keys == before.Keys
    && forall a <- before.Keys ::
         channels[a] == if a in done && a.provider == provider then before[a].(reconnect := None) else before[a]
  }

  lemma {:induction false} ClearedOneMore(before: map<Ref, Channel>, channels: map<Ref, Channel>, provider: string,
                                          done: set<Ref>, a: Ref)
    requires ClearedIn(before, channels, provider, done) && a in before && a !in done
    ensures ClearedIn(before, if a.provider == provider then channels[a := channels[a].(reconnect := None)]
                                else channels,
                      provider, done + {a})
  {
  }

  /** Dropping the recovery records of one provider's channels. */
  method DropProviderRecoveries(before: map<Ref, Channel>, provider: string) returns (channels: map<Ref, Channel>)
    ensures ClearedIn(before, channels, provider, before.Keys)
  {
    channels := before;
    var done: set<Ref> := {};
    while done != before.Keys
      invariant done <= before.Keys && ClearedIn(before, channels, provider, done)
      decreases |before.Keys - done|
    {
      var a :| a in before.Keys - done;
      OneLess(before.Keys, done, a);
      ClearedOneMore(before, channels, provider, done, a);
      if a.provider == provider {
        channels := channels[a := channels[a].(reconnect := None)];
      }
      done := done + {a};
    }
  }

  /** What the named channels look like once the first `n` names have got their keys. */
  ghost predicate RekeyedUpTo(before: map<Ref, Channel>, channels: map<Ref, Channel>, provider: string,
                              keys: map<string, Wg>, order: seq<string>, n: nat)
    requires n <= |order|
  {
    && channels.Keys == before.Keys
    && forall a <- before.Keys ::
         channels[a] == if a.provider == provider && a.cid in keys && a.cid in order[..n]
                          then before[a].(wg := keys[a.cid])
                        else before[a]
  }

  lemma {:induction false} RekeyedOneMore(before: map<Ref, Channel>, channels: map<Ref, Channel>, provider: string,
                                          keys: map<string, Wg>, order: seq<string>, n: nat)
    requires n < |order| && order[n] in keys && RekeyedUpTo(before, channels, provider, keys, order, n)
    ensures var a := Ref(provider, order[n]);
            RekeyedUpTo(before, if a in channels then channels[a := channels[a].(wg := keys[order[n]])] else channels,
                        provider, keys, order, n + 1)
  {
    assert order[..n + 1] == order[..n] + [order[n]];
  }

  lemma {:induction false} RekeyedAll(before: map<Ref, Channel>, keyed: map<Ref, Channel>, channels: map<Ref, Channel>,
                                      provider: string, keys: map<string, Wg>, order: seq<string>)
    requires RekeyedUpTo(before, keyed, provider, keys, order, |order|)
             && ClearedIn(keyed, channels, provider, keyed.Keys)
    requires forall cid :: cid in order <==> cid in keys
    ensures channels == Rekeyed(before, provider, keys)
  {
    assert order[..|order|] == order;
  }

  /** New keys, name by name; names without a channel are skipped, and the others reported. */
  method ReplaceKeysIn(before: map<Ref, Channel>, provider: string, keys: map<string, Wg>, order: seq<string>)
    returns (channels: map<Ref, Channel>, updated: seq<string>)
    requires forall cid :: cid in order <==> cid in keys
    ensures channels == Rekeyed(before, provider, keys)
    ensures forall cid :: cid in updated <==> cid in keys && Ref(provider, cid) in before
  {
    channels, updated := before, [];
    for i := 0 to |order|
      invariant RekeyedUpTo(before, channels, provider, keys, order, i)
      invariant forall cid :: cid in updated <==> cid in order[..i] && Ref(provider, cid) in before
    {
      assert order[..i + 1] == order[..i] + [order[i]];
      var a := Ref(provider, order[i]);
      assert order[i] in keys;
      RekeyedOneMore(before, channels, provider, keys, order, i);
      if a in channels {
        channels, updated := channels[a := channels[a].(wg := keys[order[i]])], updated + [order[i]];
      }
    }
    assert order[..|order|] == order;
    ghost var keyed := channels;
    channels := DropProviderRecoveries(channels, provider);
    RekeyedAll(before, keyed, channels, provider, keys, order);
  }

  /** Ruleset ids that are gone, in their old order. */
  method Dissolved(before: seq<Id>, after: seq<Id>) returns (gone: seq<Id>)
    ensures forall id :: id in gone <==> id in before && id !in after
  {
    gone := [];
    for i := 0 to |before|
      invariant forall id :: id in gone <==> id in before[..i] && id !in after
    {
      assert before[..i + 1] == before[..i] + [before[i]];
      if before[i] !in after {
        gone := gone + [before[i]];
      }
    }
    assert before[..|before|] == before;
  }

  /** One channel of a bundle: created, found in agreement, or updated field by field. */
  method UpsertChannel(before: Upserts, router: Router, spec: ChannelSpec, sync: bool)
      returns (r: Result<Upserts, string>)
    ensures UpsertOne(before, router, spec, sync).Ok? ==> r == UpsertOne(before, router, spec, sync)
    ensures UpsertOne(before, router, spec, sync).Err? ==> r.Err?
  {
    var channels, offers := before.channels, before.offers;
    var enabled := ResolvedEnabled(channels, spec);
    if spec.ref !in channels {
      var port := spec.port;
      if port != 0 {
        var ok := ClaimPort(channels, router, port, spec.ref);
        if !ok {
          return Err("port in use");
        }
      } else {
        if !OfferOk(channels, router, offers) {
          return Err("no free port");
        }
        port, offers := offers[0], offers[1..];
      }
      return Ok(Upserts(channels[spec.ref := NewChannel(spec, port, enabled, sync)], offers,
                        before.changes + [Created]));
    }
    var ch := channels[spec.ref];
    if Agrees(ch, spec, enabled, sync) {
      return Ok(before.(changes := before.changes + [Unchanged]));
    }
    ch := ch.(country := spec.country, city := spec.city, server := spec.server, wg := spec.wg);
    if spec.port != 0 && spec.port != ch.port {
      var ok := ClaimPort(channels, router, spec.port, spec.ref);
      if !ok {
        return Err("port in use");
      }
      ch := ch.(port := spec.port);
    }
    if spec.port != 0 {
      ch := ch.(portExplicit := true);
    } else if sync {
      ch := ch.(portExplicit := false);
    }
    if spec.title != "" {
      ch := ch.(title := spec.title);
    }
    if enabled {
      ch := ch.(enabled := true);
    } else {
      ch := ch.(enabled := false);
      ch := ch.(probe := None);
    }
    ch := ch.(reconnect := None);
    assert ch == Converged(before.channels[spec.ref], spec, enabled, sync);
    r := Ok(before.(channels := channels[spec.ref := ch], changes := before.changes + [Updated]));
  }

  lemma {:induction false} UpsertErrSticks(u: Upserts, router: Router, specs: seq<ChannelSpec>, sync: bool, n: nat)
    requires n <= |specs| && UpsertAll(u, router, specs[..n], sync).Err?
    ensures UpsertAll(u, router, specs, sync).Err?
    decreases |specs|
  {
    if n < |specs| {
      assert specs[..|specs| - 1][..n] == specs[..n];
      UpsertErrSticks(u, router, specs[..|specs| - 1], sync, n);
    } else {
      assert specs[..n] == specs;
    }
  }

  /** The loop over a bundle's channels; the first failure aborts it. */
  method UpsertChannels(start: Upserts, router: Router, specs: seq<ChannelSpec>, sync: bool)
      returns (r: Result<Upserts, string>)
    ensures UpsertAll(start, router, specs, sync).Ok? ==> r == UpsertAll(start, router, specs, sync)
    ensures UpsertAll(start, router, specs, sync).Err? ==> r.Err?
  {
    var u := start;
    for i := 0 to |specs|
      invariant UpsertAll(start, router, specs[..i], sync) == Ok(u)
    {
      assert specs[..i + 1][..i] == specs[..i];
      var next := UpsertChannel(u, router, specs[i], sync);
      if next.Err? {
        UpsertErrSticks(start, router, specs, sync, i + 1);
        return next;
      }
      u := next.value;
    }
    assert specs[..|specs|] == specs;
    r := Ok(u);
  }
}
