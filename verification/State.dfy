/** The committed state: channels, the router section and the ordered rule rows with their ruleset blocks. */
module State {
  import opened Common
  import opened Routes

  // ---- vocabulary ----

  datatype Ref = Ref(provider: string, cid: string)

  /** The schema check refuses empty targets. */
  type NonEmpty = t: string | t != "" witness "x"

  /** A target string: the two words, `<provider>/<channel>`, or anything without a channel part. */
  datatype Target = Direct | Block | Via(ref: Ref) | Bare(text: NonEmpty)

  /** `_target_name` */
  function TargetName(t: Target): (name: string)
    ensures name != ""
  {
    match t
    case Direct => "Direct"
    case Block => "Block"
    case Via(ref) => ref.provider + "/" + ref.cid
    case Bare(text) => text
  }

  /** A stored id: one this program minted (`r7`, `rs7`), or any other text with the number it reads as. */
  datatype Id = Minted(n: nat) | Foreign(text: string, num: nat)

  function Num(id: Id): nat {
    match id
    case Minted(n) => n
    case Foreign(_, num) => num
  }

  datatype Rule = Rule(id: Id, matcher: Matcher, target: Target, ruleset: Id, name: string, managed: bool)

  datatype Cidr = V4(text: string) | V6(text: string, isGlobal: bool) | BadCidr(text: string)
  datatype Peer = Peer(host: string, port: nat, publicKey: string, allowedIps: seq<Cidr>, keepalive: nat,
                       preshared: string)
  datatype Wg = NoWg | Wg(privateKey: string, address: seq<Cidr>, peer: Option<Peer>)

  datatype Probe = Probe(ok: bool, error: string)

  /** The reconnect record of a channel; an absent record is `None`. */
  datatype Recovery = Recovery(fails: nat, attempts: nat, lastAt: int, nextAt: int, failed: bool, error: string,
                               nonce: nat)

  datatype Channel = Channel(
    country: string, city: string, title: string, server: string, wg: Wg,
    port: nat, portExplicit: bool, portHome: Option<nat>,
    enabled: bool, managed: bool, probe: Option<Probe>, reconnect: Option<Recovery>)

  datatype Router = Router(port: nat, portExplicit: bool, portHome: Option<nat>, killswitch: bool, lanDirect: bool,
                           tun: bool)

  /** `providers` maps each provider to its provenance mark. */
  datatype State = State(providers: map<string, bool>, channels: map<Ref, Channel>, router: Router, rules: seq<Rule>)

  // ---- minting ids ----

  function MaxRule(rules: seq<Rule>): (m: nat)
    ensures forall r <- rules :: Num(r.id) <= m
  {
    if rules == [] then 0
    else
      var m := MaxRule(rules[..|rules| - 1]);
      var n := Num(rules[|rules| - 1].id);
      assert rules == rules[..|rules| - 1] + [rules[|rules| - 1]];
      if n > m then n else m
  }

  function MaxRuleset(rules: seq<Rule>): (m: nat)
    ensures forall r <- rules :: Num(r.ruleset) <= m
  {
    if rules == [] then 0
    else
      var m := MaxRuleset(rules[..|rules| - 1]);
      var n := Num(rules[|rules| - 1].ruleset);
      assert rules == rules[..|rules| - 1] + [rules[|rules| - 1]];
      if n > m then n else m
  }

  ghost predicate UniqueIds(rules: seq<Rule>) {
    forall i, j :: 0 <= i < j < |rules| ==> rules[i].id != rules[j].id
  }

  // ---- contiguous, single-target ruleset blocks ----

  predicate HasRuleset(rules: seq<Rule>, rs: Id) {
    exists i :: 0 <= i < |rules| && rules[i].ruleset == rs
  }

  /** A row of ruleset `rs` with target `t` continues the last block of `rules`. */
  predicate Continues(rules: seq<Rule>, rs: Id, t: Target) {
    rules != [] && rules[|rules| - 1].ruleset == rs && rules[|rules| - 1].target == t
  }

  /** `r` may follow `rules`: it continues the last block with its target, or opens a new one. */
  predicate Fits(rules: seq<Rule>, r: Rule) {
    Continues(rules, r.ruleset, r.target) || !HasRuleset(rules, r.ruleset)
  }

  predicate Grouped(rules: seq<Rule>) {
    rules == [] || (Grouped(rules[..|rules| - 1]) && Fits(rules[..|rules| - 1], rules[|rules| - 1]))
  }

  datatype RulesetBlock = RulesetBlock(id: Id, rules: seq<Rule>)
  {
    predicate Uniform() {
      && rules != []
      && (forall i :: 0 <= i < |rules| ==> rules[i].ruleset == id && rules[i].target == rules[0].target)
    }

    function Target(): Target
      requires rules != []
    {
      rules[0].target
    }

    function Name(): (name: string)
      requires rules != []
      ensures name != ""
    {
      if rules[0].name != "" then rules[0].name else TargetName(rules[0].target)
    }

    predicate AnyManaged() {
      exists i :: 0 <= i < |rules| && rules[i].managed
    }
  }

  function Flatten(blocks: seq<RulesetBlock>): seq<Rule> {
    if blocks == [] then [] else Flatten(blocks[..|blocks| - 1]) + blocks[|blocks| - 1].rules
  }

  /** One more row: into the last block when the id agrees, else into a new one. */
  function Extend(blocks: seq<RulesetBlock>, r: Rule): seq<RulesetBlock> {
    if blocks != [] && blocks[|blocks| - 1].id == r.ruleset
    then blocks[..|blocks| - 1] + [RulesetBlock(r.ruleset, blocks[|blocks| - 1].rules + [r])]
    else blocks + [RulesetBlock(r.ruleset, [r])]
  }

  /** The maximal runs of rows with one ruleset id, in order. */
  function Runs(rules: seq<Rule>): seq<RulesetBlock> {
    if rules == [] then [] else Extend(Runs(rules[..|rules| - 1]), rules[|rules| - 1])
  }

  predicate WellBlocked(blocks: seq<RulesetBlock>) {
    && (forall i :: 0 <= i < |blocks| ==> blocks[i].Uniform())
    && (forall i, j :: 0 <= i < j < |blocks| ==> blocks[i].id != blocks[j].id)
  }

  lemma {:induction false} FlattenAppend(blocks: seq<RulesetBlock>, b: RulesetBlock)
    ensures Flatten(blocks + [b]) == Flatten(blocks) + b.rules
  {
    assert (blocks + [b])[..|blocks|] == blocks;
  }

  lemma {:induction false} SplitLast<T>(a: seq<T>, b: seq<T>)
    requires b != []
    ensures a + b == (a + b[..|b| - 1]) + [b[|b| - 1]]
  {
  }

  lemma {:induction false} Associates<T>(a: seq<T>, b: seq<T>, c: seq<T>)
    ensures (a + b) + c == a + (b + c)
  {
  }

  lemma {:induction false} FlattenConcat(a: seq<RulesetBlock>, b: seq<RulesetBlock>)
    ensures Flatten(a + b) == Flatten(a) + Flatten(b)
  {
    if b == [] {
      assert a + b == a;
    } else {
      var front, last := b[..|b| - 1], b[|b| - 1];
      FlattenConcat(a, front);
      SplitLast(a, b);
      FlattenAppend(a + front, last);
      Associates(Flatten(a), Flatten(front), last.rules);
    }
  }

  lemma {:induction false} HasRulesetConcat(a: seq<Rule>, b: seq<Rule>, rs: Id)
    ensures HasRuleset(a + b, rs) <==> HasRuleset(a, rs) || HasRuleset(b, rs)
  {
    if i :| 0 <= i < |a| && a[i].ruleset == rs {
      assert (a + b)[i].ruleset == rs;
    }
    if i :| 0 <= i < |b| && b[i].ruleset == rs {
      assert (a + b)[|a| + i].ruleset == rs;
    }
  }

  lemma {:induction false} FlattenHasRuleset(blocks: seq<RulesetBlock>, rs: Id)
    requires forall i :: 0 <= i < |blocks| ==> blocks[i].Uniform()
    ensures HasRuleset(Flatten(blocks), rs) <==> exists i :: 0 <= i < |blocks| && blocks[i].id == rs
  {
    if blocks != [] {
      var front, last := blocks[..|blocks| - 1], blocks[|blocks| - 1];
      FlattenHasRuleset(front, rs);
      HasRulesetConcat(Flatten(front), last.rules, rs);
      if last.id == rs {
        assert last.rules[0].ruleset == rs;
      }
    }
  }

  lemma {:induction false} GroupedAppend(rules: seq<Rule>, r: Rule)
    ensures Grouped(rules + [r]) <==> Grouped(rules) && Fits(rules, r)
  {
    assert (rules + [r])[..|rules|] == rules;
  }

  /** Appending a uniform run that opens a new block, or continues the last one, keeps the grouping. */
  lemma {:induction false} AppendRun(rules: seq<Rule>, run: seq<Rule>, rs: Id, t: Target)
    requires Grouped(rules) && forall i :: 0 <= i < |run| ==> run[i].ruleset == rs && run[i].target == t
    requires !HasRuleset(rules, rs) || Continues(rules, rs, t)
    ensures Grouped(rules + run)
    ensures run != [] ==> Continues(rules + run, rs, t)
  {
    if run == [] {
      assert rules + run == rules;
    } else {
      var front, last := run[..|run| - 1], run[|run| - 1];
      AppendRun(rules, front, rs, t);
      SplitLast(rules, run);
      if front == [] {
        assert rules + front == rules;
      }
      GroupedAppend(rules + front, last);
    }
  }

  /** Well-formed blocks laid end to end are grouped. */
  lemma {:induction false} FlattenGrouped(blocks: seq<RulesetBlock>)
    requires WellBlocked(blocks)
    ensures Grouped(Flatten(blocks))
  {
    if blocks != [] {
      var front, last := blocks[..|blocks| - 1], blocks[|blocks| - 1];
      FlattenGrouped(front);
      FlattenHasRuleset(front, last.id);
      AppendRun(Flatten(front), last.rules, last.id, last.Target());
    }
  }

  lemma {:induction false} RunsStep(rules: seq<Rule>, r: Rule)
    ensures Runs(rules + [r]) == Extend(Runs(rules), r)
  {
    assert (rules + [r])[..|rules|] == rules;
  }

  lemma {:induction false} RunsNext(rules: seq<Rule>, i: nat)
    requires i < |rules|
    ensures Runs(rules[..i + 1]) == Extend(Runs(rules[..i]), rules[i])
  {
    assert rules[..i + 1] == rules[..i] + [rules[i]];
    RunsStep(rules[..i], rules[i]);
  }

  lemma {:induction false} FlattenExtend(blocks: seq<RulesetBlock>, r: Rule)
    ensures Flatten(Extend(blocks, r)) == Flatten(blocks) + [r]
  {
    if blocks != [] && blocks[|blocks| - 1].id == r.ruleset {
      var init, last := blocks[..|blocks| - 1], blocks[|blocks| - 1];
      FlattenAppend(init, RulesetBlock(r.ruleset, last.rules + [r]));
      assert Flatten(init) + (last.rules + [r]) == (Flatten(init) + last.rules) + [r];
    } else {
      FlattenAppend(blocks, RulesetBlock(r.ruleset, [r]));
    }
  }

  lemma {:induction false} ExtendLast(blocks: seq<RulesetBlock>, r: Rule)
    ensures Extend(blocks, r) != [] && Extend(blocks, r)[|Extend(blocks, r)| - 1].id == r.ruleset
    ensures (forall i :: 0 <= i < |blocks| ==> blocks[i].rules != [])
            ==> forall i :: 0 <= i < |Extend(blocks, r)| ==> Extend(blocks, r)[i].rules != []
  {
  }

  /** The blocks give the rows back, and the last row is in the last block. */
  lemma {:induction false} FlattenRuns(rules: seq<Rule>)
    ensures Flatten(Runs(rules)) == rules
    ensures forall i :: 0 <= i < |Runs(rules)| ==> Runs(rules)[i].rules != []
    ensures rules != [] ==> Runs(rules) != [] && Runs(rules)[|Runs(rules)| - 1].id == rules[|rules| - 1].ruleset
  {
    if rules != [] {
      var front, r := rules[..|rules| - 1], rules[|rules| - 1];
      FlattenRuns(front);
      var before := Runs(front);
      assert Runs(rules) == Extend(before, r);
      FlattenExtend(before, r);
      ExtendLast(before, r);
      assert rules == front + [r];
    }
  }

  lemma {:induction false} LastTarget(rules: seq<Rule>)
    requires rules != [] && WellBlocked(Runs(rules))
    ensures Runs(rules) != [] && Runs(rules)[|Runs(rules)| - 1].rules != []
    ensures Runs(rules)[|Runs(rules)| - 1].rules[0].target == rules[|rules| - 1].target
  {
    FlattenRuns(rules);
    var bs := Runs(rules);
    var last := bs[|bs| - 1];
    assert last.Uniform();
    assert rules[|rules| - 1] == last.rules[|last.rules| - 1];
  }

  lemma {:induction false} ExtendWellBlocked(blocks: seq<RulesetBlock>, r: Rule)
    requires WellBlocked(blocks)
    requires if blocks != [] && blocks[|blocks| - 1].id == r.ruleset
             then blocks[|blocks| - 1].rules != [] && blocks[|blocks| - 1].Target() == r.target
             else forall i :: 0 <= i < |blocks| ==> blocks[i].id != r.ruleset
    ensures WellBlocked(Extend(blocks, r))
  {
    if blocks != [] {
      assert blocks[|blocks| - 1].Uniform();
    }
  }

  /** Grouped rows split into well-formed blocks. */
  lemma {:induction false} RunsWellBlocked(rules: seq<Rule>)
    requires Grouped(rules)
    ensures WellBlocked(Runs(rules))
  {
    if rules != [] {
      var front, r := rules[..|rules| - 1], rules[|rules| - 1];
      RunsWellBlocked(front);
      FlattenRuns(front);
      FlattenHasRuleset(Runs(front), r.ruleset);
      if front != [] {
        LastTarget(front);
        assert HasRuleset(front, front[|front| - 1].ruleset);
      }
      ExtendWellBlocked(Runs(front), r);
    }
  }

  lemma {:induction false} ExtendsOwnBlock(blocks: seq<RulesetBlock>, b: RulesetBlock, r: Rule)
    requires r.ruleset == b.id
    ensures Extend(blocks + [b], r) == blocks + [RulesetBlock(b.id, b.rules + [r])]
  {
    assert (blocks + [b])[..|blocks|] == blocks;
  }

  /** One more row of the run goes into the run's own block. */
  lemma {:induction false} RunGrows(rules: seq<Rule>, run: seq<Rule>, r: Rule)
    requires Runs(rules + run) == Runs(rules) + [RulesetBlock(r.ruleset, run)]
    ensures Runs((rules + run) + [r]) == Runs(rules) + [RulesetBlock(r.ruleset, run + [r])]
  {
    RunsStep(rules + run, r);
    ExtendsOwnBlock(Runs(rules), RulesetBlock(r.ruleset, run), r);
  }

  lemma {:induction false} RunsOfRun(rules: seq<Rule>, run: seq<Rule>, rs: Id)
    requires run != [] && forall i :: 0 <= i < |run| ==> run[i].ruleset == rs
    requires Runs(rules) == [] || Runs(rules)[|Runs(rules)| - 1].id != rs
    ensures Runs(rules + run) == Runs(rules) + [RulesetBlock(rs, run)]
  {
    var front, last := run[..|run| - 1], run[|run| - 1];
    if front == [] {
      assert run == [last];
      RunsStep(rules, last);
    } else {
      RunsOfRun(rules, front, rs);
      RunGrows(rules, front, last);
      SplitLast(rules, run);
      assert run == front + [last];
    }
  }

  lemma {:induction false} FrontAndLast(blocks: seq<RulesetBlock>)
    requires blocks != []
    ensures blocks == blocks[..|blocks| - 1] + [RulesetBlock(blocks[|blocks| - 1].id, blocks[|blocks| - 1].rules)]
  {
  }

  /** Splitting undoes laying end to end. */
  lemma {:induction false} RunsOfFlatten(blocks: seq<RulesetBlock>)
    requires WellBlocked(blocks)
    ensures Runs(Flatten(blocks)) == blocks
  {
    if blocks != [] {
      var front, last := blocks[..|blocks| - 1], blocks[|blocks| - 1];
      RunsOfFlatten(front);
      assert last.Uniform();
      if front != [] {
        assert blocks[|blocks| - 2].id != blocks[|blocks| - 1].id;
      }
      RunsOfRun(Flatten(front), last.rules, last.id);
      FrontAndLast(blocks);
    }
  }

  /** `closed` holds the rulesets of the first `i` rows except the one still open. */
  ghost predicate ClosedAt(rules: seq<Rule>, i: nat, closed: set<Id>)
    requires i <= |rules|
  {
    forall rs :: rs in closed <==> HasRuleset(rules[..i], rs) && (i > 0 ==> rs != rules[i - 1].ruleset)
  }

  /** Whether row `i` fits is decided by the previous row and the set of closed rulesets. */
  lemma {:induction false} FitsByClosedSet(rules: seq<Rule>, i: nat, closed: set<Id>)
    requires i < |rules| && Grouped(rules[..i])
    requires ClosedAt(rules, i, closed)
    ensures i > 0 && rules[i].ruleset == rules[i - 1].ruleset ==>
              && Runs(rules[..i]) != [] && Runs(rules[..i])[|Runs(rules[..i])| - 1].rules != []
              && (Grouped(rules[..i + 1]) <==> rules[i].target == Runs(rules[..i])[|Runs(rules[..i])| - 1].Target())
              && Runs(rules[..i])[|Runs(rules[..i])| - 1].id == rules[i].ruleset
    ensures (i == 0 || rules[i].ruleset != rules[i - 1].ruleset) ==>
              && (Grouped(rules[..i + 1]) <==> rules[i].ruleset !in closed)
              && (Runs(rules[..i]) == [] || Runs(rules[..i])[|Runs(rules[..i])| - 1].id != rules[i].ruleset)
  {
    var front := rules[..i];
    assert rules[..i + 1] == front + [rules[i]];
    GroupedAppend(front, rules[i]);
    FlattenRuns(front);
    if i > 0 {
      RunsWellBlocked(front);
      LastTarget(front);
      assert front[i - 1] == rules[i - 1];
      assert HasRuleset(front, rules[i - 1].ruleset);
    }
  }

  lemma {:induction false} ClosedNext(rules: seq<Rule>, i: nat, closed: set<Id>)
    requires i < |rules| && ClosedAt(rules, i, closed)
    requires i > 0 && rules[i].ruleset != rules[i - 1].ruleset ==> rules[i].ruleset !in closed
    ensures ClosedAt(rules, i + 1,
                     if i > 0 && rules[i].ruleset != rules[i - 1].ruleset then closed + {rules[i - 1].ruleset}
                         else closed)
  {
    forall rs ensures HasRuleset(rules[..i + 1], rs) <==> HasRuleset(rules[..i], rs) || rs == rules[i].ruleset {
      assert rules[..i + 1] == rules[..i] + [rules[i]];
      HasRulesetConcat(rules[..i], [rules[i]], rs);
      assert [rules[i]][0].ruleset == rs <==> rs == rules[i].ruleset;
    }
    if i > 0 {
      assert rules[..i][i - 1].ruleset == rules[i - 1].ruleset;
    }
  }

  /** `_ruleset_blocks`: the blocks when every ruleset is contiguous with one target, an error otherwise. */
  method RulesetBlocks(rules: seq<Rule>) returns (r: Result<seq<RulesetBlock>, string>)
    ensures r.Ok? <==> Grouped(rules)
    ensures r.Ok? ==> r.value == Runs(rules)
  {
    var blocks: seq<RulesetBlock> := [];
    var seenClosed: set<Id> := {};
    for i := 0 to |rules|
      invariant Grouped(rules[..i]) && blocks == Runs(rules[..i])
      invariant ClosedAt(rules, i, seenClosed)
    {
      var rule := rules[i];
      FitsByClosedSet(rules, i, seenClosed);
      RunsNext(rules, i);
      if i == 0 || rule.ruleset != rules[i - 1].ruleset {
        if rule.ruleset in seenClosed {
          NotGroupedBeyond(rules, i + 1);
          return Err("ruleset is not contiguous");
        }
        ClosedNext(rules, i, seenClosed);
        if i > 0 {
          seenClosed := seenClosed + {rules[i - 1].ruleset};
        }
        blocks := blocks + [RulesetBlock(rule.ruleset, [rule])];
      } else {
        var last := blocks[|blocks| - 1];
        if rule.target != last.Target() {
          NotGroupedBeyond(rules, i + 1);
          return Err("ruleset has mixed targets");
        }
        ClosedNext(rules, i, seenClosed);
        blocks := blocks[..|blocks| - 1] + [RulesetBlock(rule.ruleset, last.rules + [rule])];
      }
    }
    assert rules[..|rules|] == rules;
    r := Ok(blocks);
  }

  lemma {:induction false} NotGroupedBeyond(rules: seq<Rule>, n: nat)
    requires n <= |rules| && !Grouped(rules[..n])
    ensures !Grouped(rules)
    decreases |rules|
  {
    if n < |rules| {
      assert rules[..|rules| - 1][..n] == rules[..n];
      NotGroupedBeyond(rules[..|rules| - 1], n);
    } else {
      assert rules[..n] == rules;
    }
  }
}
