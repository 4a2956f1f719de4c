/** What each kind of stored matcher means for a destination. */
module MatcherMeaning {
  import opened Common
  import opened Bits
  import opened Routes
  import Sets = RuleSets
  import Trees = LabelTree

  /** A name as the bytes the rule-set reader looks up. */
  type Encoding = string -> seq<byte>

  function SetIps(ips: seq<Ip>): (out: seq<Sets.Ip>)
    ensures |out| == |ips|
    ensures forall i :: 0 <= i < |ips| ==> out[i] == Sets.Ip(ips[i].version, ips[i].value)
  {
    seq(|ips|, i requires 0 <= i < |ips| => Sets.Ip(ips[i].version, ips[i].value))
  }

  /** A parsed rule-set as the tracer asks it: by domain alone, or by addresses alone. */
  ghost function Parsed(rules: seq<Sets.Rule>, search: Sets.Search, encode: Encoding): GeoSet
    requires forall r <- rules :: Sets.WellFormed(r)
  {
    GeoSet(domain => exists r <- rules :: Sets.Means(r, search, encode(domain), []),
           ips => exists r <- rules :: Sets.Means(r, search, [], SetIps(ips)))
  }

  lemma {:induction false} SuffixMeans(suffix: string, domain: string)
    ensures DomainSuffixMatches(suffix, domain)
            <==> domain == suffix || exists sub :: domain == sub + "." + suffix
  {
    if EndsWith(domain, "." + suffix) {
      assert domain == domain[..|domain| - |suffix| - 1] + "." + suffix;
    }
    if sub :| domain == sub + "." + suffix {
      assert domain[|domain| - |"." + suffix|..] == "." + suffix;
    }
  }

  /** A network matches when any one of the addresses lies in its interval. */
  lemma {:induction false} NetworkMeans(parse: NetParser, geo: GeoTable, m: Matcher, d: Destination)
    requires m.kind == "ip_cidr"
    ensures MatchDestination(parse, geo, m, d)
            <==> parse(m.value).Some?
                 && var net := parse(m.value).value;
                    exists i :: 0 <= i < |d.ips| && d.ips[i].version == net.version
                      && net.address <= d.ips[i].value < net.address + Pow2(AddressBits(net.version) - net.prefixlen)
  {
    if parse(m.value).Some? {
      var net := parse(m.value).value;
      forall i | 0 <= i < |d.ips|
        ensures InNet(d.ips[i], net)
                <==> d.ips[i].version == net.version
                     && net.address <= d.ips[i].value < net.address + Pow2(AddressBits(net.version) - net.prefixlen)
      {
        InNetIsInterval(d.ips[i], net);
      }
    }
  }

  /** Everything, one domain and what lies under it, nothing: the kinds that need no address and no file. */
  lemma {:induction false} PlainKindsMean(parse: NetParser, geo: GeoTable, m: Matcher, d: Destination)
    ensures m.kind == "all" ==> MatchDestination(parse, geo, m, d)
    ensures m.kind == "domain_suffix" ==>
              (MatchDestination(parse, geo, m, d)
               <==> d.domain.Some? && (d.domain.value == m.value
                                       || exists sub :: d.domain.value == sub + "." + m.value))
    ensures m.kind !in {"all", "domain_suffix", "ip_cidr", "geosite", "geoip"} ==> !MatchDestination(parse, geo, m, d)
    ensures m.kind in {"geosite", "geoip"} && geo(m.kind, m.value).None? ==> !MatchDestination(parse, geo, m, d)
  {
    if d.domain.Some? {
      SuffixMeans(m.value, d.domain.value);
    }
  }

  /** A domain category matches the domain its rule-set names, never the addresses. */
  lemma {:induction false} GeositeMeans(parse: NetParser, geo: GeoTable, m: Matcher, d: Destination,
                                        rules: seq<Sets.Rule>, search: Sets.Search, encode: Encoding)
    requires m.kind == "geosite" && forall r <- rules :: Sets.WellFormed(r) && Sets.Written(r)
    requires geo(m.kind, m.value) == Some(Parsed(rules, search, encode))
    requires d.domain.Some? ==> Trees.NoMarkers(encode(d.domain.value))
    ensures MatchDestination(parse, geo, m, d)
            <==> d.domain.Some? && d.domain.value != ""
                 && exists i :: 0 <= i < |rules| && Sets.Denotes(rules[i], search, encode(d.domain.value), [])
  {
    if d.domain.Some? {
      AllMean(rules, search, encode(d.domain.value), []);
      assert Parsed(rules, search, encode).matchDomain(d.domain.value)
             <==> exists r <- rules :: Sets.Means(r, search, encode(d.domain.value), []);
    }
  }

  /** An address category matches the addresses its rule-set names, never the domain. */
  lemma {:induction false} GeoipMeans(parse: NetParser, geo: GeoTable, m: Matcher, d: Destination,
                                      rules: seq<Sets.Rule>, search: Sets.Search, encode: Encoding)
    requires m.kind == "geoip" && forall r <- rules :: Sets.WellFormed(r) && Sets.Written(r)
    requires geo(m.kind, m.value) == Some(Parsed(rules, search, encode))
    ensures MatchDestination(parse, geo, m, d)
            <==> d.ips != [] && exists i :: 0 <= i < |rules| && Sets.Denotes(rules[i], search, [], SetIps(d.ips))
  {
    AllMean(rules, search, [], SetIps(d.ips));
    assert Parsed(rules, search, encode).matchIps(d.ips)
           <==> exists r <- rules :: Sets.Means(r, search, [], SetIps(d.ips));
  }

  lemma {:induction false} AllMean(rules: seq<Sets.Rule>, search: Sets.Search, domain: seq<byte>, ips: seq<Sets.Ip>)
    requires (forall r <- rules :: Sets.WellFormed(r) && Sets.Written(r)) && Trees.NoMarkers(domain)
    ensures (exists r <- rules :: Sets.Means(r, search, domain, ips))
            <==> exists i :: 0 <= i < |rules| && Sets.Denotes(rules[i], search, domain, ips)
  {
    forall i | 0 <= i < |rules|
      ensures Sets.Means(rules[i], search, domain, ips) <==> Sets.Denotes(rules[i], search, domain, ips)
    {
      Sets.MeansDenotes(rules[i], search, domain, ips);
    }
  }

  // ---- covering ----

  lemma {:induction false} BroadcastFits(net: Net)
    ensures net.address <= Broadcast(net) < Pow2(AddressBits(net.version))
  {
    var bits, low := AddressBits(net.version), AddressBits(net.version) - net.prefixlen;
    Pow2Add(net.prefixlen, low);
    BlockBaseIsFloor(net.version, net.prefixlen, net.address);
    LastMultipleFits(net.address / Pow2(low), Pow2(net.prefixlen), Pow2(low));
  }

  lemma {:induction false} LastMultipleFits(q: nat, p: nat, k: nat)
    requires k > 0 && q * k < p * k
    ensures q * k + k <= p * k
  {
    if p <= q {
      MulMonotone(p, q, k);
    } else {
      MulMonotone(q + 1, p, k);
    }
  }

  function AtIp(version: nat, value: nat): Destination
    requires version in {4, 6} && value < Pow2(AddressBits(version))
  {
    Destination(None, [RawIp(version, value)])
  }

  lemma {:induction false} MatchesAtIp(parse: NetParser, geo: GeoTable, m: Matcher, version: nat, value: nat)
    requires m.kind == "ip_cidr" && parse(m.value).Some? && version in {4, 6} && value < Pow2(AddressBits(version))
    ensures MatchDestination(parse, geo, m, AtIp(version, value))
            <==> var net := parse(m.value).value; version == net.version && net.address <= value <= Broadcast(net)
  {
    var d := AtIp(version, value);
    InNetIsInterval(d.ips[0], parse(m.value).value);
  }

  /** Among domains and among networks the lint misses nothing: where one matcher takes in all another one does, it
      covers it. */
  lemma {:induction false} CoversIsComplete(parse: NetParser, geo: GeoTable, a: Matcher, b: Matcher)
    requires a.kind == b.kind && (a.kind == "domain_suffix" || a.kind == "ip_cidr")
    requires a.kind == "ip_cidr" ==> parse(a.value).Some? && parse(b.value).Some?
    requires forall d :: MatchDestination(parse, geo, b, d) ==> MatchDestination(parse, geo, a, d)
    ensures Covered(parse, a, b)
  {
    if a.kind == "domain_suffix" {
      var d := Destination(Some(b.value), []);
      assert MatchDestination(parse, geo, b, d);
    } else {
      var inner := parse(b.value).value;
      BroadcastFits(inner);
      MatchesAtIp(parse, geo, a, inner.version, inner.address);
      MatchesAtIp(parse, geo, b, inner.version, inner.address);
      MatchesAtIp(parse, geo, a, inner.version, Broadcast(inner));
      MatchesAtIp(parse, geo, b, inner.version, Broadcast(inner));
    }
  }

  /** Of the other pairs it decides these: `all` takes in everything, a category itself, and nothing else is claimed;
      only a network that does not parse leaves it without an answer. */
  lemma {:induction false} CoversElsewhere(parse: NetParser, a: Matcher, b: Matcher)
    ensures a.kind == "all" ==> Covered(parse, a, b)
    ensures a.kind != "all" && b.kind == "all" ==> !Covered(parse, a, b)
    ensures a.kind in {"geosite", "geoip"} ==> (Covered(parse, a, b) <==> a == b)
    ensures a.kind != "all" && a.kind != b.kind ==> !Covered(parse, a, b)
    ensures Covers(parse, a, b).None? <==>
              a.kind == b.kind == "ip_cidr" && (parse(a.value).None? || parse(b.value).None?)
  {
  }
}
