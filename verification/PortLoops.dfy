/** The loops that move ports, and the ones a restore runs. */
module PortLoops {
  import opened Common
  import opened State
  import opened RulesetOps
  import opened Setup
  import opened Ports
  import opened Operations
  import opened StoreLoops

  // ---- stolen ports ----

  lemma {:induction false} ReallocateErrSticks(r: Reallocation, router: Router, ports: set<nat>, order: seq<Ref>,
                                               n: nat)
    requires n <= |order| && forall i :: 0 <= i < |order| ==> order[i] in r.channels
    requires ReallocateAll(r, router, ports, order[..n]).Err?
    ensures ReallocateAll(r, router, ports, order).Err?
    decreases |order|
  {
    if n < |order| {
      assert order[..|order| - 1][..n] == order[..n];
      ReallocateErrSticks(r, router, ports, order[..|order| - 1], n);
    } else {
      assert order[..n] == order;
    }
  }

  /** The visit of `reallocate_channel_ports` to every channel. */
  method MoveStolen(start: Reallocation, router: Router, ports: set<nat>, order: seq<Ref>)
      returns (r: Result<Reallocation, string>)
    requires forall i :: 0 <= i < |order| ==> order[i] in start.channels
    ensures ReallocateAll(start, router, ports, order).Ok? ==> r == ReallocateAll(start, router, ports, order)
    ensures ReallocateAll(start, router, ports, order).Err? ==> r.Err?
  {
    var m := start;
    for i := 0 to |order|
      invariant ReallocateAll(start, router, ports, order[..i]) == Ok(m)
    {
      assert order[..i + 1][..i] == order[..i];
      var ref := order[i];
      var ch := m.channels[ref];
      var old_ := ch.port;
      if old_ in ports {
        if ch.portExplicit {
          m := m.(held := m.held + [(ref, old_)]);
        } else {
          if !OfferOk(m.channels, router, m.offers) {
            ReallocateErrSticks(start, router, ports, order, i + 1);
            return Err("no free port");
          }
          var port := m.offers[0];
          if ch.portHome.None? {
            ch := ch.(portHome := Some(old_));
          }
          ch := ch.(port := port);
          m := Reallocation(m.channels[ref := ch], m.offers[1..], m.moved + [(ref, old_, port)], m.held);
        }
      }
    }
    assert order[..|order|] == order;
    r := Ok(m);
  }

  /** The visit of `restore_home_ports` to every channel. */
  method BringHome(start: Homing, osFree: nat -> bool, order: seq<Ref>) returns (h: Homing)
    requires forall i :: 0 <= i < |order| ==> order[i] in start.channels
    ensures h == HomeAll(start, osFree, order)
  {
    h := start;
    for i := 0 to |order|
      invariant h == HomeAll(start, osFree, order[..i])
    {
      assert order[..i + 1][..i] == order[..i];
      var ref := order[i];
      var ch := h.channels[ref];
      if !ch.portExplicit && ch.portHome.Some? {
        var home := ch.portHome.value;
        if home != ch.port && home !in h.used && osFree(home) {
          var used := h.used - {ch.port};
          used := used + {home};
          h := Homing(h.channels[ref := ch.(port := home)], used, h.restored + [(ref, home)]);
        }
      }
    }
    assert order[..|order|] == order;
  }

  // ---- restoring a whole setup ----

  method BuildChannels(old_: map<Ref, Channel>, specs: seq<ChannelSpec>) returns (channels: map<Ref, Channel>)
    ensures channels == RestoredChannels(old_, specs)
  {
    channels := map[];
    for i := 0 to |specs|
      invariant channels == RestoredChannels(old_, specs[..i])
    {
      assert specs[..i + 1][..i] == specs[..i];
      channels := channels[specs[i].ref := RestoredChannel(old_, specs[i])];
    }
    assert specs[..|specs|] == specs;
  }

  /** The ports seen so far: the router's and those of the first `n` channels, no two alike. */
  ghost predicate SeenUpTo(channels: map<Ref, Channel>, router: Router, specs: seq<ChannelSpec>, seen: set<nat>, n: nat)
    requires n <= |specs| && forall i :: 0 <= i < |specs| ==> specs[i].ref in channels
  {
    && (router.port != 0 ==> router.port in seen)
    && (forall i :: 0 <= i < n && channels[specs[i].ref].port != 0 ==> channels[specs[i].ref].port in seen)
    && (forall p :: p in seen ==> p == router.port || exists i :: 0 <= i < n && channels[specs[i].ref].port == p)
    && (forall i :: 0 <= i < n && channels[specs[i].ref].port != 0 ==> channels[specs[i].ref].port != router.port)
    && (forall i, j :: 0 <= i < j < n && channels[specs[i].ref].port != 0
          ==> channels[specs[i].ref].port != channels[specs[j].ref].port)
  }

  lemma {:induction false} AllSeenIsDistinct(channels: map<Ref, Channel>, router: Router, specs: seq<ChannelSpec>,
                                             seen: set<nat>)
    requires forall i :: 0 <= i < |specs| ==> specs[i].ref in channels
    requires channels.Keys == BundleRefs(specs) && SeenUpTo(channels, router, specs, seen, |specs|)
    ensures DistinctPorts(channels, router)
  {
    forall a, b | a in channels.Keys && b in channels.Keys && a != b && channels[a].port != 0
      ensures channels[a].port != channels[b].port
    {
      var i :| 0 <= i < |specs| && specs[i].ref == a;
      var j :| 0 <= j < |specs| && specs[j].ref == b;
    }
  }

  lemma {:induction false} SeenTwice(channels: map<Ref, Channel>, router: Router, specs: seq<ChannelSpec>,
                                     seen: set<nat>, n: nat)
    requires n < |specs| && forall i :: 0 <= i < |specs| ==> specs[i].ref in channels
    requires forall i, j :: 0 <= i < j < |specs| ==> specs[i].ref != specs[j].ref
    requires SeenUpTo(channels, router, specs, seen, n)
    requires channels[specs[n].ref].port != 0 && channels[specs[n].ref].port in seen
    ensures !DistinctPorts(channels, router)
  {
    var p := channels[specs[n].ref].port;
    if p != router.port {
      var i :| 0 <= i < n && channels[specs[i].ref].port == p;
      assert specs[i].ref != specs[n].ref;
    }
  }

  lemma {:induction false} SeenNext(channels: map<Ref, Channel>, router: Router, specs: seq<ChannelSpec>,
                                    seen: set<nat>, n: nat)
    requires n < |specs| && forall i :: 0 <= i < |specs| ==> specs[i].ref in channels
    requires SeenUpTo(channels, router, specs, seen, n)
    ensures channels[specs[n].ref].port == 0 ==> SeenUpTo(channels, router, specs, seen, n + 1)
    ensures channels[specs[n].ref].port != 0 && channels[specs[n].ref].port !in seen
            ==> SeenUpTo(channels, router, specs, seen + {channels[specs[n].ref].port}, n + 1)
  {
    var port := channels[specs[n].ref].port;
    forall p | p in seen + {port} && p != router.port
      ensures p in seen ==> exists i :: 0 <= i < n + 1 && channels[specs[i].ref].port == p
      ensures p !in seen ==> channels[specs[n].ref].port == p
    {
      if p in seen {
        var i :| 0 <= i < n && channels[specs[i].ref].port == p;
      }
    }
  }

  /** The duplicate check over declared and kept ports. */
  method PortsDistinct(channels: map<Ref, Channel>, router: Router, specs: seq<ChannelSpec>) returns (ok: bool)
    requires forall i :: 0 <= i < |specs| ==> specs[i].ref in channels
    requires channels.Keys == BundleRefs(specs)
    requires forall i, j :: 0 <= i < j < |specs| ==> specs[i].ref != specs[j].ref
    ensures ok <==> DistinctPorts(channels, router)
  {
    var seen: set<nat> := if router.port != 0 then {router.port} else {};
    for i := 0 to |specs|
      invariant SeenUpTo(channels, router, specs, seen, i)
    {
      SeenNext(channels, router, specs, seen, i);
      var port := channels[specs[i].ref].port;
      if port != 0 {
        if port in seen {
          SeenTwice(channels, router, specs, seen, i);
          return false;
        }
        seen := seen + {port};
      }
    }
    AllSeenIsDistinct(channels, router, specs, seen);
    ok := true;
  }

  lemma {:induction false} FillErrSticks(channels: map<Ref, Channel>, router: Router, specs: seq<ChannelSpec>,
                                         offers: seq<nat>, n: nat)
    requires n <= |specs| && forall i :: 0 <= i < |specs| ==> specs[i].ref in channels
    requires FillPorts(channels, router, specs[..n], offers).Err?
    ensures FillPorts(channels, router, specs, offers).Err?
    decreases |specs|
  {
    if n < |specs| {
      assert specs[..|specs| - 1][..n] == specs[..n];
      FillErrSticks(channels, router, specs[..|specs| - 1], offers, n);
    } else {
      assert specs[..n] == specs;
    }
  }

  method AllocateMissing(before: map<Ref, Channel>, router: Router, specs: seq<ChannelSpec>, offers: seq<nat>)
    returns (r: Result<map<Ref, Channel>, string>)
    requires forall i :: 0 <= i < |specs| ==> specs[i].ref in before
    ensures FillPorts(before, router, specs, offers).Ok? ==> r == Ok(FillPorts(before, router, specs, offers).value.0)
    ensures FillPorts(before, router, specs, offers).Err? ==> r.Err?
  {
    var channels, left := before, offers;
    for i := 0 to |specs|
      invariant channels.Keys == before.Keys
      invariant FillPorts(before, router, specs[..i], offers) == Ok((channels, left))
    {
      assert specs[..i + 1][..i] == specs[..i];
      var ref := specs[i].ref;
      if channels[ref].port == 0 {
        if !OfferOk(channels, router, left) {
          FillErrSticks(before, router, specs, offers, i + 1);
          return Err("no free port");
        }
        channels, left := channels[ref := channels[ref].(port := left[0])], left[1..];
      }
    }
    assert specs[..|specs|] == specs;
    r := Ok(channels);
  }

  /** One block's rows, each numbered by the length of the list so far. */
  method NumberBlock(before: seq<Rule>, d: RulesetSpec, rs: Id) returns (rules: seq<Rule>)
    ensures rules == before + NewRows(|before|, d.matchers, d.target, rs, d.name, false)
  {
    var rows: seq<Rule> := [];
    for k := 0 to |d.matchers|
      invariant |rows| == k && Numbered(rows, |before|, d.matchers, d.target, rs, d.name)
    {
      rows := rows + [Rule(Minted(|before + rows| + 1), d.matchers[k], d.target, rs, d.name, false)];
    }
    NumberedIsNewRows(rows, |before|, d.matchers, d.target, rs, d.name);
    rules := before + rows;
  }

  lemma {:induction false} RestoredNext(specs: seq<RulesetSpec>, i: nat)
    requires i < |specs|
    ensures var before := RestoredRules(specs[..i]);
            RestoredRules(specs[..i + 1])
            == before + NewRows(|before|, specs[i].matchers, specs[i].target, Minted(i + 1), specs[i].name, false)
  {
    assert specs[..i + 1][..i] == specs[..i];
  }

  /** Rules of a restore, numbered from `r1` and `rs1`. */
  method NumberRules(specs: seq<RulesetSpec>) returns (rules: seq<Rule>)
    ensures rules == RestoredRules(specs)
  {
    rules := [];
    for i := 0 to |specs|
      invariant rules == RestoredRules(specs[..i])
    {
      RestoredNext(specs, i);
      rules := NumberBlock(rules, specs[i], Minted(i + 1));
    }
    assert specs[..|specs|] == specs;
  }

  lemma {:induction false} AppendNext(before: seq<Rule>, specs: seq<RulesetSpec>, i: nat)
    requires i < |specs|
    ensures AppendRulesets(before, specs[..i + 1])
            == CreateRows(AppendRulesets(before, specs[..i]), specs[i].name, specs[i].target, specs[i].matchers)
  {
    assert specs[..i + 1][..i] == specs[..i];
  }

  /** Appending a merge's rulesets one after the other. */
  method AppendBlocks(before: seq<Rule>, specs: seq<RulesetSpec>) returns (rules: seq<Rule>)
    ensures rules == AppendRulesets(before, specs)
  {
    rules := before;
    for i := 0 to |specs|
      invariant rules == AppendRulesets(before, specs[..i])
    {
      AppendNext(before, specs, i);
      rules := AppendRuleset(rules, specs[i].name, specs[i].target, specs[i].matchers);
    }
    assert specs[..|specs|] == specs;
  }
}
