/** Matchers, destinations, and the relation "an earlier rule makes a later one unreachable". */
module Routes {
  import opened Common
  import opened Bits

  // ---- networks ----

  function AddressBits(version: nat): nat {
    if version == 4 then 32 else 128
  }

  datatype RawNet = RawNet(version: nat, prefixlen: nat, address: nat)

  /** The base address of the block of `prefixlen` leading bits that holds `address`. */
  function BlockBase(version: nat, prefixlen: nat, address: nat): nat
    requires prefixlen <= AddressBits(version)
  {
    And(address, Shl(Shl(1, prefixlen) - 1, AddressBits(version) - prefixlen))
  }

  /** What `ipaddress.ip_network` accepts: no host bits set (RFC 4632 section 3.1, RFC 4291 section 2.3). */
  predicate Canonical(n: RawNet) {
    && n.version in {4, 6}
    && n.prefixlen <= AddressBits(n.version)
    && n.address < Pow2(AddressBits(n.version))
    && BlockBase(n.version, n.prefixlen, n.address) == n.address
  }

  lemma {:induction false} DefaultNetCanonical()
    ensures Canonical(RawNet(4, 0, 0))
  {
  }

  type Net = n: RawNet | Canonical(n) witness (DefaultNetCanonical(); RawNet(4, 0, 0))

  datatype RawIp = RawIp(version: nat, value: nat)
  type Ip = ip: RawIp | ip.version in {4, 6} && ip.value < Pow2(AddressBits(ip.version)) witness RawIp(4, 0)

  /** `ip in net` */
  predicate InNet(ip: Ip, net: Net) {
    ip.version == net.version && BlockBase(net.version, net.prefixlen, ip.value) == net.address
  }

  function Broadcast(n: Net): int {
    n.address + Pow2(AddressBits(n.version) - n.prefixlen) - 1
  }

  /** `_subnet_of` */
  predicate SubnetOf(inner: Net, outer: Net) {
    inner.version == outer.version && outer.address <= inner.address && Broadcast(outer) >= Broadcast(inner)
  }

  lemma {:induction false} BlockBaseIsFloor(version: nat, len: nat, address: nat)
    requires len <= AddressBits(version) && address < Pow2(AddressBits(version))
    ensures var k := Pow2(AddressBits(version) - len);
            BlockBase(version, len, address) == address / k * k
  {
    AndHighMask(address, len, AddressBits(version) - len);
  }

  lemma {:induction false} FloorBounds(a: nat, k: nat)
    requires k > 0
    ensures a / k * k <= a < a / k * k + k
  {
  }

  lemma {:induction false} FloorUnique(a: nat, k: nat, q: nat)
    requires k > 0 && q * k <= a < q * k + k
    ensures a / k * k == q * k
  {
    QuotientIs(a, k, q, a - q * k);
  }

  lemma {:induction false} FloorIsInterval(v: nat, a: nat, k: nat)
    requires k > 0 && a / k * k == a
    ensures v / k * k == a <==> a <= v < a + k
  {
    FloorBounds(v, k);
    if a <= v < a + k {
      FloorUnique(v, k, a / k);
    }
  }

  /** A block's members are exactly its address interval. */
  lemma {:induction false} InNetIsInterval(ip: Ip, net: Net)
    ensures InNet(ip, net) <==> ip.version == net.version && net.address <= ip.value <= Broadcast(net)
  {
    var k := Pow2(AddressBits(net.version) - net.prefixlen);
    if ip.version == net.version {
      BlockBaseIsFloor(net.version, net.prefixlen, ip.value);
      BlockBaseIsFloor(net.version, net.prefixlen, net.address);
      FloorIsInterval(ip.value, net.address, k);
    }
  }

  lemma {:induction false} MulMonotone(a: nat, b: nat, k: nat)
    requires a <= b
    ensures a * k <= b * k
  {
  }

  lemma {:induction false} BlockFitsBlock(a: nat, k: nat, m: nat, q: nat, p: nat)
    requires k > 0 && m > 0 && a == q * k && p * (m * k) <= a < p * (m * k) + m * k
    ensures a + k <= p * (m * k) + m * k
  {
    var r := (p + 1) * m;
    assert r * k == p * (m * k) + m * k;
    if q >= r {
      MulMonotone(r, q, k);
    } else {
      MulMonotone(q + 1, r, k);
    }
  }

  lemma {:induction false} AlignedContainment(a: nat, k: nat, b: nat, m: nat)
    requires k > 0 && m > 0 && a / k * k == a && b / (m * k) * (m * k) == b
    ensures (b <= a && a + k <= b + m * k) <==> a / (m * k) * (m * k) == b
  {
    var big := m * k;
    FloorBounds(a, big);
    if b <= a && a + k <= b + big {
      FloorUnique(a, big, b / big);
    } else if a / big * big == b {
      BlockFitsBlock(a, k, m, a / k, a / big);
    }
  }

  /** Containment of blocks is a comparison of prefix lengths plus one masked address. */
  lemma {:induction false} SubnetIsMaskedLookup(inner: Net, outer: Net)
    requires inner.version == outer.version
    ensures SubnetOf(inner, outer)
            <==> outer.prefixlen <= inner.prefixlen
                 && BlockBase(inner.version, outer.prefixlen, inner.address) == outer.address
  {
    var bits := AddressBits(inner.version);
    var low := bits - inner.prefixlen;
    if outer.prefixlen <= inner.prefixlen {
      var gap := inner.prefixlen - outer.prefixlen;
      Pow2Add(gap, low);
      assert bits - outer.prefixlen == gap + low;
      BlockBaseIsFloor(inner.version, inner.prefixlen, inner.address);
      BlockBaseIsFloor(inner.version, outer.prefixlen, inner.address);
      BlockBaseIsFloor(outer.version, outer.prefixlen, outer.address);
      AlignedContainment(inner.address, Pow2(low), outer.address, Pow2(gap));
    } else {
      Pow2StrictlyMonotone(bits - outer.prefixlen, low);
    }
  }

  // ---- domains ----

  predicate EndsWith(s: string, suffix: string) {
    |suffix| <= |s| && s[|s| - |suffix|..] == suffix
  }

  /** `domain_suffix_matches` */
  predicate DomainSuffixMatches(suffix: string, domain: string) {
    domain == suffix || EndsWith(domain, "." + suffix)
  }

  lemma {:induction false} EndsWithTransitive(a: string, b: string, c: string)
    requires EndsWith(b, a) && EndsWith(c, b)
    ensures EndsWith(c, a)
  {
    assert c[|c| - |b|..][|b| - |a|..] == c[|c| - |a|..];
  }

  lemma {:induction false} DomainSuffixTransitive(a: string, b: string, c: string)
    requires DomainSuffixMatches(a, b) && DomainSuffixMatches(b, c)
    ensures DomainSuffixMatches(a, c)
  {
    if a != b && b != c {
      assert ("." + b)[1..] == b;
      assert EndsWith("." + b, b);
      EndsWithTransitive("." + a, b, "." + b);
      EndsWithTransitive("." + a, "." + b, c);
    }
  }

  // ---- rules and destinations ----

  /** A stored matcher: its type word and its value, as the rule rows carry them. */
  datatype Matcher = Matcher(kind: string, value: string)

  /** `ipaddress.ip_network` on a stored value: a canonical network, or `None` where it raises. */
  type NetParser = string -> Option<Net>

  /** What a parsed rule-set answers for a domain and for resolved addresses. */
  datatype GeoSet = GeoSet(matchDomain: string -> bool, matchIps: seq<Ip> -> bool)
  type GeoTable = (string, string) -> Option<GeoSet>

  datatype Destination = Destination(domain: Option<string>, ips: seq<Ip>)

  predicate IsGeo(kind: string) {
    kind == "geosite" || kind == "geoip"
  }

  /** `match_destination` */
  predicate MatchDestination(parse: NetParser, geo: GeoTable, m: Matcher, d: Destination) {
    if m.kind == "all" then true
    else if m.kind == "domain_suffix" then d.domain.Some? && DomainSuffixMatches(m.value, d.domain.value)
    else if m.kind == "ip_cidr" then
      parse(m.value).Some? && exists ip <- d.ips :: InNet(ip, parse(m.value).value)
    else if IsGeo(m.kind) then
      match geo(m.kind, m.value)
      case None => false
      case Some(g) =>
        if m.kind == "geosite" then d.domain.Some? && d.domain.value != "" && g.matchDomain(d.domain.value)
        else d.ips != [] && g.matchIps(d.ips)
    else false
  }

  /** `covers`; `None` where parsing a stored network raises. */
  function Covers(parse: NetParser, a: Matcher, b: Matcher): Option<bool> {
    if a.kind == "all" then Some(true)
    else if b.kind == "all" then Some(false)
    else if IsGeo(a.kind) || IsGeo(b.kind) then Some(a.kind == b.kind && a.value == b.value)
    else if a.kind == "domain_suffix" && b.kind == "domain_suffix" then Some(DomainSuffixMatches(a.value, b.value))
    else if a.kind == "ip_cidr" && b.kind == "ip_cidr" then
      if parse(a.value).Some? && parse(b.value).Some?
      then Some(SubnetOf(parse(b.value).value, parse(a.value).value))
      else None
    else Some(false)
  }

  predicate Covered(parse: NetParser, a: Matcher, b: Matcher) {
    Covers(parse, a, b) == Some(true)
  }

  /** `covers` is sound for `match_destination`: whatever the covered rule matches, the covering one does. */
  lemma {:induction false} CoversIsSound(parse: NetParser, geo: GeoTable, a: Matcher, b: Matcher, d: Destination)
    requires Covered(parse, a, b) && MatchDestination(parse, geo, b, d)
    ensures MatchDestination(parse, geo, a, d)
  {
    if a.kind == "domain_suffix" && b.kind == "domain_suffix" {
      DomainSuffixTransitive(a.value, b.value, d.domain.value);
    } else if a.kind == "ip_cidr" && b.kind == "ip_cidr" {
      var ip :| ip in d.ips && InNet(ip, parse(b.value).value);
      InNetIsInterval(ip, parse(a.value).value);
      InNetIsInterval(ip, parse(b.value).value);
    }
  }

  lemma {:induction false} CoversTransitive(parse: NetParser, a: Matcher, b: Matcher, c: Matcher)
    requires Covered(parse, a, b) && Covered(parse, b, c)
    ensures Covered(parse, a, c)
  {
    if a.kind == "domain_suffix" && b.kind == "domain_suffix" && c.kind == "domain_suffix" {
      DomainSuffixTransitive(a.value, b.value, c.value);
    }
  }

  // ---- the rule table ----

  datatype TableRule = TableRule(id: string, matcher: Matcher)

  predicate DistinctIds(rules: seq<TableRule>) {
    forall i, j :: 0 <= i < j < |rules| ==> rules[i].id != rules[j].id
  }

  /** `i` is the earliest of the first `n` rules that covers `m`. */
  ghost predicate IsEarliestCover(parse: NetParser, rules: seq<TableRule>, n: nat, m: Matcher, i: nat)
    requires n <= |rules|
  {
    && i < n && Covered(parse, rules[i].matcher, m)
    && forall h :: 0 <= h < i ==> !Covered(parse, rules[h].matcher, m)
  }

  /** Some earlier rule covers rule `j`. */
  ghost predicate Shadowed(parse: NetParser, rules: seq<TableRule>, j: nat)
    requires j < |rules|
  {
    exists i :: 0 <= i < j && Covered(parse, rules[i].matcher, rules[j].matcher)
  }

  /** The rules that survive deleting every shadowed one at once. */
  ghost function Unshadowed(parse: NetParser, rules: seq<TableRule>, n: nat): seq<TableRule>
    requires n <= |rules|
  {
    if n == 0 then []
    else Unshadowed(parse, rules, n - 1) + (if Shadowed(parse, rules, n - 1) then [] else [rules[n - 1]])
  }

  /** First match wins. */
  ghost function FirstMatch(parse: NetParser, geo: GeoTable, rules: seq<TableRule>, d: Destination): Option<TableRule> {
    if rules == [] then None
    else
      var before := FirstMatch(parse, geo, rules[..|rules| - 1], d);
      if before.Some? then before
      else if MatchDestination(parse, geo, rules[|rules| - 1].matcher, d) then Some(rules[|rules| - 1]) else None
  }

  lemma {:induction false} SomeMatchMeansFirstMatch(parse: NetParser, geo: GeoTable, rules: seq<TableRule>,
                                                    d: Destination, i: nat)
    requires i < |rules| && MatchDestination(parse, geo, rules[i].matcher, d)
    ensures FirstMatch(parse, geo, rules, d).Some?
  {
    if i < |rules| - 1 {
      SomeMatchMeansFirstMatch(parse, geo, rules[..|rules| - 1], d, i);
    }
  }

  lemma {:induction false} ShadowedNeverFirst(parse: NetParser, geo: GeoTable, rules: seq<TableRule>, d: Destination,
                                              j: nat)
    requires j < |rules| && Shadowed(parse, rules, j)
    ensures FirstMatch(parse, geo, rules[..j] + [rules[j]], d) == FirstMatch(parse, geo, rules[..j], d)
  {
    FirstMatchAppend(parse, geo, rules[..j], rules[j], d);
    if MatchDestination(parse, geo, rules[j].matcher, d) {
      var i :| 0 <= i < j && Covered(parse, rules[i].matcher, rules[j].matcher);
      CoversIsSound(parse, geo, rules[i].matcher, rules[j].matcher, d);
      SomeMatchMeansFirstMatch(parse, geo, rules[..j], d, i);
    }
  }

  lemma {:induction false} DeletingUpTo(parse: NetParser, geo: GeoTable, rules: seq<TableRule>, d: Destination, n: nat)
    requires n <= |rules|
    ensures FirstMatch(parse, geo, Unshadowed(parse, rules, n), d) == FirstMatch(parse, geo, rules[..n], d)
  {
    if n != 0 {
      DeletingUpTo(parse, geo, rules, d, n - 1);
      var kept := Unshadowed(parse, rules, n - 1);
      assert rules[..n] == rules[..n - 1] + [rules[n - 1]];
      if Shadowed(parse, rules, n - 1) {
        ShadowedNeverFirst(parse, geo, rules, d, n - 1);
        assert Unshadowed(parse, rules, n) == kept;
      } else {
        FirstMatchAppend(parse, geo, rules[..n - 1], rules[n - 1], d);
        FirstMatchAppend(parse, geo, kept, rules[n - 1], d);
        assert Unshadowed(parse, rules, n) == kept + [rules[n - 1]];
      }
    }
  }

  lemma {:induction false} FirstMatchAppend(parse: NetParser, geo: GeoTable, rules: seq<TableRule>, r: TableRule,
                                            d: Destination)
    ensures FirstMatch(parse, geo, rules + [r], d)
            == if FirstMatch(parse, geo, rules, d).Some? then FirstMatch(parse, geo, rules, d)
               else if MatchDestination(parse, geo, r.matcher, d) then Some(r) else None
  {
    assert (rules + [r])[..|rules|] == rules;
  }

  /** Deleting every shadowed rule at once changes no destination's first match: the very same rule wins. */
  lemma {:induction false} DeletingShadowedRulesIsSafe(parse: NetParser, geo: GeoTable, rules: seq<TableRule>,
                                                       d: Destination)
    ensures FirstMatch(parse, geo, Unshadowed(parse, rules, |rules|), d) == FirstMatch(parse, geo, rules, d)
  {
    DeletingUpTo(parse, geo, rules, d, |rules|);
    assert rules[..|rules|] == rules;
  }

  /** The rule named as the reason is itself reachable in this sense: it is never shadowed. */
  lemma {:induction false} EarliestCoverIsUnshadowed(parse: NetParser, rules: seq<TableRule>, j: nat, i: nat)
    requires j < |rules| && IsEarliestCover(parse, rules, j, rules[j].matcher, i)
    ensures !Shadowed(parse, rules, i)
  {
    if Shadowed(parse, rules, i) {
      var h :| 0 <= h < i && Covered(parse, rules[h].matcher, rules[i].matcher);
      CoversTransitive(parse, rules[h].matcher, rules[i].matcher, rules[j].matcher);
    }
  }
}
