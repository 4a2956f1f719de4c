/** The lint's built-in marker: user rules inside the LAN-direct ranges. */
module LanShadow {
  import opened Common
  import opened Bits
  import opened Routes
  import opened State
  import opened RouteCompiler

  /** `shadowed_by_lan_direct` */
  predicate ShadowedByLanDirect(parse: NetParser, m: Matcher) {
    && m.kind == "ip_cidr" && parse(m.value).Some?
    && exists i :: 0 <= i < |LAN_DIRECT_CIDRS| && Canonical(LAN_DIRECT_CIDRS[i])
         && SubnetOf(parse(m.value).value, LAN_DIRECT_CIDRS[i])
  }

  // ---- the built-in ranges are networks ----

  lemma {:induction false} BlockIsCanonical(n: RawNet, k: nat, q: nat)
    requires n.version in {4, 6} && n.prefixlen <= AddressBits(n.version) && n.address < Pow2(AddressBits(n.version))
    requires k == Pow2(AddressBits(n.version) - n.prefixlen) && n.address == q * k
    ensures Canonical(n)
  {
    BlockBaseIsFloor(n.version, n.prefixlen, n.address);
    QuotientIs(n.address, k, q, 0);
  }

  /** A range of four-byte addresses that starts at `q` blocks of its own size. */
  lemma {:induction false} V4Block(n: RawNet, k: nat, q: nat)
    requires n.version == 4 && n.prefixlen <= 32 && n.address < 0x1_0000_0000 && Pow2(32 - n.prefixlen) == k
             && n.address == q * k
    ensures Canonical(n)
  {
    Pow2Of32();
    BlockIsCanonical(n, k, q);
  }

  lemma {:induction false} SlashEights(i: nat)
    requires i == 0 || i == 4
    ensures Canonical(LAN_DIRECT_CIDRS[i])
  {
    Pow2Of24();
    V4Block(LAN_DIRECT_CIDRS[i], 0x100_0000, if i == 0 then 0x0A else 0x7F);
  }

  lemma {:induction false} SlashSixteens(i: nat)
    requires i == 2 || i == 3
    ensures Canonical(LAN_DIRECT_CIDRS[i])
  {
    Pow2Of16();
    V4Block(LAN_DIRECT_CIDRS[i], 0x1_0000, if i == 2 then 0xC0A8 else 0xA9FE);
  }

  lemma {:induction false} OtherV4Ranges(i: nat)
    requires i == 1 || i == 5 || i == 6
    ensures Canonical(LAN_DIRECT_CIDRS[i])
  {
    if i == 1 {
      Pow2Of20();
      V4Block(LAN_DIRECT_CIDRS[i], 0x10_0000, 0xAC1);
    } else if i == 5 {
      Pow2Of28();
      V4Block(LAN_DIRECT_CIDRS[i], 0x1000_0000, 0xE);
    } else {
      SmallPowers();
      V4Block(LAN_DIRECT_CIDRS[i], 1, 0xFFFF_FFFF);
    }
  }

  lemma {:induction false} V6RangesAreNetworks(i: nat)
    requires 7 <= i < |LAN_DIRECT_CIDRS|
    ensures Canonical(LAN_DIRECT_CIDRS[i])
  {
    Pow2Of128();
    SmallPowers();
    match i
    case 7 =>
      BlockIsCanonical(LAN_DIRECT_CIDRS[7], 1, 1);
    case 8 =>
      Pow2Of118();
      BlockIsCanonical(LAN_DIRECT_CIDRS[8], 0x40_0000_0000_0000_0000_0000_0000_0000, 0x3FA);
    case 9 =>
      Pow2Of121();
      BlockIsCanonical(LAN_DIRECT_CIDRS[9], 0x200_0000_0000_0000_0000_0000_0000_0000, 0x7E);
    case 10 =>
      Pow2Of120();
      BlockIsCanonical(LAN_DIRECT_CIDRS[10], 0x100_0000_0000_0000_0000_0000_0000_0000, 0xFF);
  }

  /** Every built-in range is a network, so the lint skips none of them. */
  lemma {:induction false} LanRangesAreNetworks(i: nat)
    requires i < |LAN_DIRECT_CIDRS|
    ensures Canonical(LAN_DIRECT_CIDRS[i])
  {
    if i == 0 || i == 4 {
      SlashEights(i);
    } else if i == 2 || i == 3 {
      SlashSixteens(i);
    } else if i < 7 {
      OtherV4Ranges(i);
    } else {
      V6RangesAreNetworks(i);
    }
  }

  // ---- the addresses they stand for ----

  /** Private, link-local, loopback, multicast and broadcast addresses. */
  predicate InLan(ip: Ip) {
    if ip.version == 4 then
      || 0x0A00_0000 <= ip.value <= 0x0AFF_FFFF
      || 0xAC10_0000 <= ip.value <= 0xAC1F_FFFF
      || 0xC0A8_0000 <= ip.value <= 0xC0A8_FFFF
      || 0xA9FE_0000 <= ip.value <= 0xA9FE_FFFF
      || 0x7F00_0000 <= ip.value <= 0x7FFF_FFFF
      || 0xE000_0000 <= ip.value <= 0xEFFF_FFFF
      || ip.value == 0xFFFF_FFFF
    else
      || ip.value == 1
      || 0xFE80_0000_0000_0000_0000_0000_0000_0000 <= ip.value <= 0xFEBF_FFFF_FFFF_FFFF_FFFF_FFFF_FFFF_FFFF
      || 0xFC00_0000_0000_0000_0000_0000_0000_0000 <= ip.value <= 0xFDFF_FFFF_FFFF_FFFF_FFFF_FFFF_FFFF_FFFF
      || 0xFF00_0000_0000_0000_0000_0000_0000_0000 <= ip.value <= 0xFFFF_FFFF_FFFF_FFFF_FFFF_FFFF_FFFF_FFFF
  }

  /** The last address of range `i`. */
  function LastOf(i: nat): nat
    requires i < |LAN_DIRECT_CIDRS|
  {
    [0x0AFF_FFFF, 0xAC1F_FFFF, 0xC0A8_FFFF, 0xA9FE_FFFF, 0x7FFF_FFFF, 0xEFFF_FFFF, 0xFFFF_FFFF,
     1,
     0xFEBF_FFFF_FFFF_FFFF_FFFF_FFFF_FFFF_FFFF,
     0xFDFF_FFFF_FFFF_FFFF_FFFF_FFFF_FFFF_FFFF,
     0xFFFF_FFFF_FFFF_FFFF_FFFF_FFFF_FFFF_FFFF][i]
  }

  predicate InRange(ip: Ip, i: nat)
    requires i < |LAN_DIRECT_CIDRS|
  {
    ip.version == LAN_DIRECT_CIDRS[i].version && LAN_DIRECT_CIDRS[i].address <= ip.value <= LastOf(i)
  }

  lemma {:induction false} V4LastAddress(i: nat)
    requires i < 7
    ensures Canonical(LAN_DIRECT_CIDRS[i]) && Broadcast(LAN_DIRECT_CIDRS[i]) == LastOf(i)
  {
    LanRangesAreNetworks(i);
    SmallPowers();
    Pow2Of16();
    Pow2Of20();
    Pow2Of24();
    Pow2Of28();
  }

  lemma {:induction false} V6LastAddress(i: nat)
    requires 7 <= i < |LAN_DIRECT_CIDRS|
    ensures Canonical(LAN_DIRECT_CIDRS[i]) && Broadcast(LAN_DIRECT_CIDRS[i]) == LastOf(i)
  {
    LanRangesAreNetworks(i);
    SmallPowers();
    Pow2Of118();
    Pow2Of120();
    Pow2Of121();
  }

  lemma {:induction false} RangeIsInterval(i: nat, ip: Ip)
    requires i < |LAN_DIRECT_CIDRS|
    ensures InRaw(ip, LAN_DIRECT_CIDRS[i]) <==> InRange(ip, i)
  {
    if i < 7 {
      V4LastAddress(i);
    } else {
      V6LastAddress(i);
    }
    InNetIsInterval(ip, LAN_DIRECT_CIDRS[i]);
  }

  /** The built-in ranges, address by address. */
  lemma {:induction false} LanIntervals(f: Flow)
    ensures InSome(f, LAN_DIRECT_CIDRS) <==> f.ip.Some? && InLan(f.ip.value)
  {
    if f.ip.Some? {
      forall i | 0 <= i < |LAN_DIRECT_CIDRS|
        ensures InRaw(f.ip.value, LAN_DIRECT_CIDRS[i]) <==> InRange(f.ip.value, i)
      {
        RangeIsInterval(i, f.ip.value);
      }
      if InSome(f, LAN_DIRECT_CIDRS) {
        var i :| 0 <= i < |LAN_DIRECT_CIDRS| && InRaw(f.ip.value, LAN_DIRECT_CIDRS[i]);
        RangeLiesInLan(f.ip.value, i);
      }
      if InLan(f.ip.value) {
        var i := RangeOfLan(f.ip.value);
        assert InRaw(f.ip.value, LAN_DIRECT_CIDRS[i]);
      }
    }
  }

  lemma {:induction false} RangeLiesInLan(ip: Ip, i: nat)
    requires i < |LAN_DIRECT_CIDRS| && InRange(ip, i)
    ensures InLan(ip)
  {
  }

  lemma {:induction false} RangeOfLan(ip: Ip) returns (i: nat)
    requires InLan(ip)
    ensures i < |LAN_DIRECT_CIDRS| && InRange(ip, i)
  {
    if ip.version == 4 {
      i := if ip.value <= 0x0AFF_FFFF then 0
           else if ip.value <= 0x7FFF_FFFF then 4
           else if ip.value <= 0xA9FE_FFFF then 3
           else if ip.value <= 0xAC1F_FFFF then 1
           else if ip.value <= 0xC0A8_FFFF then 2
           else if ip.value <= 0xEFFF_FFFF then 5
           else 6;
    } else {
      i := if ip.value == 1 then 7
           else if ip.value <= 0xFDFF_FFFF_FFFF_FFFF_FFFF_FFFF_FFFF_FFFF then 9
           else if ip.value <= 0xFEBF_FFFF_FFFF_FFFF_FFFF_FFFF_FFFF_FFFF then 8
           else 10;
    }
  }

  // ---- what is marked never decides ----

  lemma {:induction false} MemberOfOuter(inner: Net, outer: Net, ip: Ip)
    requires SubnetOf(inner, outer) && InNet(ip, inner)
    ensures InRaw(ip, outer)
  {
    InNetIsInterval(ip, inner);
    InNetIsInterval(ip, outer);
  }

  /** Whatever such a rule matches, the LAN block has already sent direct. */
  lemma {:induction false} MarkedMatchesLan(env: Env, m: Matcher, f: Flow)
    requires ShadowedByLanDirect(env.parse, m) && MatchDestination(env.parse, env.geo, m, f.Destination())
    ensures InSome(f, LAN_DIRECT_CIDRS)
  {
    var net := env.parse(m.value).value;
    var i :| 0 <= i < |LAN_DIRECT_CIDRS| && Canonical(LAN_DIRECT_CIDRS[i]) && SubnetOf(net, LAN_DIRECT_CIDRS[i]);
    MemberOfOuter(net, LAN_DIRECT_CIDRS[i], f.ip.value);
  }

  lemma {:induction false} UnmatchedIsSkipped(env: Env, t: Table, before: seq<Rule>, r: Rule, after: seq<Rule>, f: Flow)
    requires UserVerdict(env, t, r, f) == None
    ensures UserVerdicts(env, t, before + [r] + after, f) == UserVerdicts(env, t, before + after, f)
  {
    if after == [] {
      assert before + [r] + after == before + [r] && before + after == before;
      assert (before + [r])[..|before|] == before;
    } else {
      var front := after[..|after| - 1];
      UnmatchedIsSkipped(env, t, before, r, front, f);
      assert (before + [r] + after)[..|before + [r] + after| - 1] == before + [r] + front;
      assert (before + after)[..|before + after| - 1] == before + front;
    }
  }

  /** With LAN-direct on, deleting a rule the lint marks changes what happens to no connection. */
  lemma {:induction false} MarkedRuleNeverDecides(env: Env, t: Table, before: seq<Rule>, r: Rule, after: seq<Rule>,
                                                  f: Flow)
    requires t.lanDirect && f.entry in t.entries && (f.entry == TunEntry ==> t.tun)
    requires ShadowedByLanDirect(env.parse, r.matcher)
    ensures Verdict(env, TableRules(env, t, before + [r] + after), f)
            == Verdict(env, TableRules(env, t, before + after), f)
  {
    TableMeansIntended(env, t, before + [r] + after, f);
    TableMeansIntended(env, t, before + after, f);
    MarkedRuleIsIdle(env, t, before, r, after, f);
  }

  lemma {:induction false} MarkedRuleIsIdle(env: Env, t: Table, before: seq<Rule>, r: Rule, after: seq<Rule>, f: Flow)
    requires t.lanDirect && ShadowedByLanDirect(env.parse, r.matcher)
    ensures Intended(env, t, before + [r] + after, f) == Intended(env, t, before + after, f)
  {
    if MatchDestination(env.parse, env.geo, r.matcher, f.Destination()) {
      MarkedMatchesLan(env, r.matcher, f);
    } else {
      UnmatchedIsSkipped(env, t, before, r, after, f);
    }
  }
}
