/** The indexed shadow lint: a label trie, a supernet table and hash lookups in place of a pairwise scan. */
module CoverIndex {
  import opened Common
  import opened Bits
  import opened Routes
  import opened DomainLabels
  import opened LabelTrie

  // ---- what each index is keyed by ----

  datatype Key =
    | AllKey
    | GeoKey(kind: string, name: string)
    | DomainKey(path: LabelPath)
    | NetKey(version: nat, prefixlen: nat, address: nat)
    | NoKey

  /** The ground a rule claims when it is added. */
  function KeyOf(parse: NetParser, m: Matcher): Key {
    if m.kind == "all" then AllKey
    else if IsGeo(m.kind) then GeoKey(m.kind, m.value)
    else if m.kind == "domain_suffix" then DomainKey(PathOf(Path(m.value)))
    else if m.kind == "ip_cidr" && parse(m.value).Some? then
      var n := parse(m.value).value; NetKey(n.version, n.prefixlen, n.address)
    else NoKey
  }

  /** The keys whose owners cover `m`. */
  ghost predicate CoversKey(parse: NetParser, k: Key, m: Matcher) {
    match k
    case AllKey => true
    case GeoKey(kind, name) => IsGeo(m.kind) && m.kind == kind && m.value == name
    case DomainKey(path) => m.kind == "domain_suffix" && OnPath(path, Path(m.value))
    case NetKey(v, l, a) =>
      m.kind == "ip_cidr" && parse(m.value).Some? && SuperKey(parse(m.value).value, v, l, a)
    case NoKey => false
  }

  ghost predicate OnPath(p: LabelPath, labels: seq<string>) {
    exists n :: 1 <= n <= |labels| && p == PathOf(labels[..n])
  }

  predicate SuperKey(n: Net, v: nat, l: nat, a: nat) {
    n.version == v && l <= n.prefixlen && BlockBase(v, l, n.address) == a
  }

  lemma {:induction false} OnPathIsPrefix(a: seq<string>, b: seq<string>)
    requires a != []
    ensures OnPath(PathOf(a), b) <==> a <= b
  {
    if n :| 1 <= n <= |b| && PathOf(a) == PathOf(b[..n]) {
      PathOfInjective(a, b[..n]);
    }
    if a <= b {
      assert b[..|a|] == a;
    }
  }

  /** `covers` is exactly ownership of a covering key. */
  lemma {:induction false} CoversIsKeyed(parse: NetParser, a: Matcher, b: Matcher)
    ensures Covered(parse, a, b) <==> CoversKey(parse, KeyOf(parse, a), b)
  {
    if a.kind == "domain_suffix" && b.kind == "domain_suffix" {
      SuffixIsPathPrefix(a.value, b.value);
      OnPathIsPrefix(Path(a.value), Path(b.value));
    } else if a.kind == "ip_cidr" && b.kind == "ip_cidr" && parse(a.value).Some? && parse(b.value).Some? {
      var outer, inner := parse(a.value).value, parse(b.value).value;
      if inner.version == outer.version {
        SubnetIsMaskedLookup(inner, outer);
      }
    }
  }

  // ---- earliest owners ----

  /** Position of the first key equal to `k`. */
  ghost function First(keys: seq<Key>, k: Key): (r: Option<nat>)
    ensures r.Some? ==> r.value < |keys| && keys[r.value] == k && forall i :: 0 <= i < r.value ==> keys[i] != k
    ensures r.None? ==> forall i :: 0 <= i < |keys| ==> keys[i] != k
  {
    if keys == [] then None
    else
      var before := First(keys[..|keys| - 1], k);
      if before.Some? then before
      else if keys[|keys| - 1] == k then Some(|keys| - 1) else None
  }

  ghost function FirstOr(keys: seq<Key>, added: Key, k: Key): Option<nat> {
    if First(keys, k).Some? then First(keys, k) else if added == k then Some(|keys|) else None
  }

  lemma {:induction false} FirstAppend(keys: seq<Key>, added: Key)
    ensures forall k :: First(keys + [added], k) == FirstOr(keys, added, k)
  {
    assert (keys + [added])[..|keys|] == keys;
  }

  /** `best` is the earliest position whose key lies in `ks`. */
  ghost predicate EarliestIn(keys: seq<Key>, ks: set<Key>, best: Option<nat>) {
    && (best.Some? ==> best.value < |keys| && keys[best.value] in ks
                       && forall i :: 0 <= i < best.value ==> keys[i] !in ks)
    && (best.None? ==> forall i :: 0 <= i < |keys| ==> keys[i] !in ks)
  }

  lemma {:induction false} EarliestStep(keys: seq<Key>, ks: set<Key>, k: Key, best: Option<nat>)
    requires EarliestIn(keys, ks, best)
    ensures EarliestIn(keys, ks + {k}, Earliest(best, First(keys, k)))
  {
  }

  /** `best` is the earliest position that covers `m`, if any does. */
  ghost predicate EarliestCoverIs(parse: NetParser, keys: seq<Key>, m: Matcher, best: Option<nat>) {
    && (best.Some? ==> best.value < |keys| && CoversKey(parse, keys[best.value], m)
                       && forall i :: 0 <= i < best.value ==> !CoversKey(parse, keys[i], m))
    && (best.None? ==> forall i :: 0 <= i < |keys| ==> !CoversKey(parse, keys[i], m))
  }

  lemma {:induction false} FromKeySet(parse: NetParser, keys: seq<Key>, ks: set<Key>, m: Matcher, best: Option<nat>)
    requires EarliestIn(keys, ks, best)
    requires forall i :: 0 <= i < |keys| ==> (keys[i] in ks <==> CoversKey(parse, keys[i], m))
    ensures EarliestCoverIs(parse, keys, m, best)
  {
  }

  /** `AllKey` and the keys of the first `n` steps of a path. */
  ghost function PathKeys(labels: seq<string>, n: nat): set<Key>
    requires n <= |labels|
  {
    if n == 0 then {AllKey} else PathKeys(labels, n - 1) + {DomainKey(PathOf(labels[..n]))}
  }

  lemma {:induction false} PathKeysMeaning(labels: seq<string>, n: nat, k: Key)
    requires n <= |labels|
    ensures k in PathKeys(labels, n) <==>
            k == AllKey || exists i :: 1 <= i <= n && k == DomainKey(PathOf(labels[..i]))
  {
    if n != 0 {
      PathKeysMeaning(labels, n - 1, k);
    }
  }

  /** The keys along a domain's path are exactly the covering ones. */
  lemma {:induction false} DomainKeysCover(parse: NetParser, m: Matcher, k: Key)
    requires m.kind == "domain_suffix"
    ensures k in PathKeys(Path(m.value), |Path(m.value)|) <==> CoversKey(parse, k, m)
  {
    PathKeysMeaning(Path(m.value), |Path(m.value)|, k);
  }

  // ---- the index ----

  /** The network table holds the first position of every network. */
  ghost predicate NetworksHold(keys: seq<Key>, networks: map<(nat, nat, nat), nat>) {
    forall v: nat, l: nat, a: nat ::
      First(keys, NetKey(v, l, a)) == if (v, l, a) in networks then Some(networks[(v, l, a)]) else None
  }

  /** Every prefix length in use is on record for its family. */
  ghost predicate LengthsHold(keys: seq<Key>, prefixlens: map<nat, set<nat>>) {
    forall i :: 0 <= i < |keys| && keys[i].NetKey? ==>
      keys[i].version in prefixlens && keys[i].prefixlen in prefixlens[keys[i].version]
  }

  lemma {:induction false} OneMoreNetwork(keys: seq<Key>, networks: map<(nat, nat, nat), nat>, n: Net)
    requires NetworksHold(keys, networks)
    ensures var place := (n.version, n.prefixlen, n.address);
            NetworksHold(keys + [NetKey(n.version, n.prefixlen, n.address)],
                         if place in networks then networks else networks[place := |keys|])
  {
    FirstAppend(keys, NetKey(n.version, n.prefixlen, n.address));
  }

  lemma {:induction false} OneMoreLength(keys: seq<Key>, prefixlens: map<nat, set<nat>>, n: Net)
    requires LengthsHold(keys, prefixlens) && n.version in prefixlens
    ensures LengthsHold(keys + [NetKey(n.version, n.prefixlen, n.address)],
                        prefixlens[n.version := prefixlens[n.version] + {n.prefixlen}])
  {
  }

  class CoverIndex {
    const parse: NetParser
    const domains: LabelTrie
    var all: Option<nat>
    var geo: map<(string, string), nat>
    var networks: map<(nat, nat, nat), nat>
    var prefixlens: map<nat, set<nat>>

    /** The keys of the rules added so far, in order. */
    ghost var keys: seq<Key>

    ghost predicate Valid()
      reads this, domains, domains.nodes
    {
      domains.Valid() && DomainsAgree() && TablesAgree() && NetworksAgree()
    }

    ghost predicate DomainsAgree()
      requires domains.Valid()
      reads this, domains, domains.nodes
    {
      forall p :: domains.Owner(p) == First(keys, DomainKey(p))
    }

    ghost predicate TablesAgree()
      reads this
    {
      && all == First(keys, AllKey)
      && (forall k, n :: First(keys, GeoKey(k, n)) == if (k, n) in geo then Some(geo[(k, n)]) else None)
    }

    ghost predicate NetworksAgree()
      reads this
    {
      && NetworksHold(keys, networks)
      && prefixlens.Keys == {4, 6}
      && LengthsHold(keys, prefixlens)
    }

    constructor (parse: NetParser)
      ensures Valid() && keys == [] && this.parse == parse
      ensures fresh(this) && fresh(domains) && fresh(domains.nodes)
    {
      this.parse := parse;
      domains := new LabelTrie();
      all, geo, networks := None, map[], map[];
      prefixlens := map[4 := {}, 6 := {}];
      keys := [];
    }

    method AddAll(position: nat)
      requires Valid() && position == |keys|
      modifies this
      ensures Valid() && keys == old(keys) + [AllKey]
    {
      FirstAppend(keys, AllKey);
      if all == None {
        all := Some(position);
      }
      keys := keys + [AllKey];
    }

    method AddGeo(position: nat, kind: string, name: string)
      requires Valid() && position == |keys|
      modifies this
      ensures Valid() && keys == old(keys) + [GeoKey(kind, name)]
    {
      FirstAppend(keys, GeoKey(kind, name));
      if (kind, name) !in geo {
        geo := geo[(kind, name) := position];
      }
      keys := keys + [GeoKey(kind, name)];
    }

    method AddDomain(position: nat, labels: seq<string>)
      requires Valid() && position == |keys|
      modifies this, domains, domains.nodes
      ensures Valid() && keys == old(keys) + [DomainKey(PathOf(labels))]
      ensures fresh(domains.nodes - old(domains.nodes))
    {
      ghost var k := DomainKey(PathOf(labels));
      FirstAppend(keys, k);
      domains.Claim(labels, position);
      keys := keys + [k];
      forall p ensures domains.Owner(p) == First(keys, DomainKey(p)) {
        assert First(keys, DomainKey(p)) == FirstOr(old(keys), k, DomainKey(p));
      }
    }

    method AddNetwork(position: nat, n: Net)
      requires Valid() && position == |keys|
      modifies this
      ensures Valid() && keys == old(keys) + [NetKey(n.version, n.prefixlen, n.address)]
    {
      FirstAppend(keys, NetKey(n.version, n.prefixlen, n.address));
      OneMoreNetwork(keys, networks, n);
      OneMoreLength(keys, prefixlens, n);
      if (n.version, n.prefixlen, n.address) !in networks {
        networks := networks[(n.version, n.prefixlen, n.address) := position];
      }
      prefixlens := prefixlens[n.version := prefixlens[n.version] + {n.prefixlen}];
      keys := keys + [NetKey(n.version, n.prefixlen, n.address)];
    }

    /** `add`: remember that `m` sits at the next position; an earlier claim is never displaced. */
    method Add(position: nat, m: Matcher)
      requires Valid() && position == |keys|
      modifies this, domains, domains.nodes
      ensures Valid() && keys == old(keys) + [KeyOf(parse, m)]
      ensures fresh(domains.nodes - old(domains.nodes))
    {
      if m.kind == "all" {
        AddAll(position);
      } else if IsGeo(m.kind) {
        AddGeo(position, m.kind, m.value);
      } else if m.kind == "domain_suffix" {
        AddDomain(position, Path(m.value));
      } else if m.kind == "ip_cidr" && parse(m.value).Some? {
        AddNetwork(position, parse(m.value).value);
      } else {
        FirstAppend(keys, NoKey);
        keys := keys + [NoKey];
      }
    }

    lemma {:induction false} OwnersAreKeys(labels: seq<string>, n: nat)
      requires Valid() && n <= |labels|
      ensures EarliestIn(keys, PathKeys(labels, n), domains.EarliestOwner(all, labels, n))
    {
      if n != 0 {
        OwnersAreKeys(labels, n - 1);
        EarliestStep(keys, PathKeys(labels, n - 1), DomainKey(PathOf(labels[..n])),
                     domains.EarliestOwner(all, labels, n - 1));
      }
    }

    method FirstDomainCover(m: Matcher) returns (best: Option<nat>)
      requires Valid() && m.kind == "domain_suffix"
      ensures EarliestCoverIs(parse, keys, m, best)
    {
      var labels := Path(m.value);
      best := domains.FirstOnPath(labels, all);
      OwnersAreKeys(labels, |labels|);
      forall i | 0 <= i < |keys| ensures keys[i] in PathKeys(labels, |labels|) <==> CoversKey(parse, keys[i], m) {
        DomainKeysCover(parse, m, keys[i]);
      }
      FromKeySet(parse, keys, PathKeys(labels, |labels|), m, best);
    }

    /** Probe only the prefix lengths in use, each at one masked address. */
    method FirstNetCover(m: Matcher) returns (best: Option<nat>)
      requires Valid() && m.kind == "ip_cidr" && parse(m.value).Some?
      ensures EarliestCoverIs(parse, keys, m, best)
    {
      var n := parse(m.value).value;
      best := all;
      ghost var ks: set<Key> := {AllKey};
      var lengths := prefixlens[n.version];
      ghost var done: set<nat> := {};
      while lengths != {}
        invariant lengths + done == prefixlens[n.version]
        invariant EarliestIn(keys, ks, best)
        invariant forall k :: k in ks <==> k == AllKey || NetKeyOf(k, n, done)
        decreases |lengths|
      {
        var length :| length in lengths;
        lengths := lengths - {length};
        done := done + {length};
        if length <= n.prefixlen {
          var supernet := BlockBase(n.version, length, n.address);
          EarliestStep(keys, ks, NetKey(n.version, length, supernet), best);
          best := Earliest(best, if (n.version, length, supernet) in networks
                                 then Some(networks[(n.version, length, supernet)]) else None);
          ks := ks + {NetKey(n.version, length, supernet)};
        }
      }
      FromKeySet(parse, keys, ks, m, best);
    }

    /** `first_cover`: position of the earliest added rule that makes `m` unreachable. */
    method FirstCover(m: Matcher) returns (best: Option<nat>)
      requires Valid()
      ensures EarliestCoverIs(parse, keys, m, best)
    {
      best := all;
      if best == Some(0) {
        return;
      }
      if IsGeo(m.kind) {
        var k := (m.kind, m.value);
        best := Earliest(best, if k in geo then Some(geo[k]) else None);
        EarliestStep(keys, {AllKey}, GeoKey(m.kind, m.value), all);
        FromKeySet(parse, keys, {AllKey} + {GeoKey(m.kind, m.value)}, m, best);
      } else if m.kind == "domain_suffix" {
        best := FirstDomainCover(m);
      } else if m.kind == "ip_cidr" && parse(m.value).Some? {
        best := FirstNetCover(m);
      } else {
        FromKeySet(parse, keys, {AllKey}, m, best);
      }
    }
  }

  ghost predicate NetKeyOf(k: Key, n: Net, lengths: set<nat>) {
    k.NetKey? && k.prefixlen in lengths && SuperKey(n, k.version, k.prefixlen, k.address)
  }

  ghost function KeysOf(parse: NetParser, rules: seq<TableRule>): (keys: seq<Key>)
    ensures |keys| == |rules| && forall i :: 0 <= i < |rules| ==> keys[i] == KeyOf(parse, rules[i].matcher)
  {
    seq(|rules|, i requires 0 <= i < |rules| => KeyOf(parse, rules[i].matcher))
  }

  lemma {:induction false} KeysOfNext(parse: NetParser, rules: seq<TableRule>, n: nat)
    requires n < |rules|
    ensures KeysOf(parse, rules[..n + 1]) == KeysOf(parse, rules[..n]) + [KeyOf(parse, rules[n].matcher)]
  {
  }

  /** The pairwise scan: the smallest position below `n`, from `i` up, whose rule covers `m`. */
  function ScanFrom(parse: NetParser, rules: seq<TableRule>, i: nat, n: nat, m: Matcher): (r: Option<nat>)
    requires i <= n <= |rules|
    ensures r.Some? ==> i <= r.value < n && Covered(parse, rules[r.value].matcher, m)
                        && forall h :: i <= h < r.value ==> !Covered(parse, rules[h].matcher, m)
    ensures r.None? ==> forall h :: i <= h < n ==> !Covered(parse, rules[h].matcher, m)
    decreases n - i
  {
    if i == n then None
    else if Covered(parse, rules[i].matcher, m) then Some(i)
    else ScanFrom(parse, rules, i + 1, n, m)
  }

  /** The first of the rules before `j` that covers rule `j`. */
  function EarliestCover(parse: NetParser, rules: seq<TableRule>, j: nat): (r: Option<nat>)
    requires j < |rules|
    ensures r.Some? ==> r.value < j
  {
    ScanFrom(parse, rules, 0, j, rules[j].matcher)
  }

  lemma {:induction false} EarliestCoverMeaning(parse: NetParser, rules: seq<TableRule>, j: nat)
    requires j < |rules|
    ensures var r := EarliestCover(parse, rules, j);
            && (r.Some? <==> Shadowed(parse, rules, j))
            && (r.Some? ==> IsEarliestCover(parse, rules, j, rules[j].matcher, r.value))
  {
  }

  /** The index answers what the pairwise scan answers. */
  lemma {:induction false} IndexEqualsScan(parse: NetParser, rules: seq<TableRule>, j: nat, best: Option<nat>)
    requires j < |rules| && EarliestCoverIs(parse, KeysOf(parse, rules[..j]), rules[j].matcher, best)
    ensures best == EarliestCover(parse, rules, j)
  {
    var m := rules[j].matcher;
    var keys := KeysOf(parse, rules[..j]);
    forall i | 0 <= i < j ensures Covered(parse, rules[i].matcher, m) <==> CoversKey(parse, keys[i], m) {
      CoversIsKeyed(parse, rules[i].matcher, m);
    }
    var r := EarliestCover(parse, rules, j);
    if r.Some? {
      assert CoversKey(parse, keys[r.value], m);
    }
    if best.Some? {
      assert Covered(parse, rules[best.value].matcher, m);
    }
  }

  /** The report is exact for the first `n` rules: shadowed rules, and only they, map to their earliest cover. */
  ghost predicate ReportExact(parse: NetParser, rules: seq<TableRule>, n: nat, out: map<string, string>)
    requires n <= |rules|
  {
    && (forall j :: 0 <= j < n ==> ReportsRule(parse, rules, j, out))
    && (forall id <- out.Keys :: exists j :: 0 <= j < n && rules[j].id == id)
  }

  ghost predicate ReportsRule(parse: NetParser, rules: seq<TableRule>, j: nat, out: map<string, string>)
    requires j < |rules|
  {
    match EarliestCover(parse, rules, j)
    case None => rules[j].id !in out
    case Some(i) => rules[j].id in out && out[rules[j].id] == rules[i].id
  }

  /** `shadowed_by` */
  method ShadowedBy(parse: NetParser, rules: seq<TableRule>) returns (out: map<string, string>)
    requires DistinctIds(rules)
    ensures ReportExact(parse, rules, |rules|, out)
  {
    out := map[];
    var index := new CoverIndex(parse);
    for position := 0 to |rules|
      invariant index.Valid() && index.parse == parse
      invariant fresh(index) && fresh(index.domains) && fresh(index.domains.nodes)
      invariant index.keys == KeysOf(parse, rules[..position])
      invariant ReportExact(parse, rules, position, out)
    {
      var covering := index.FirstCover(rules[position].matcher);
      ReportNext(parse, rules, position, out, covering);
      out := if covering.Some? then out[rules[position].id := rules[covering.value].id] else out;
      index.Add(position, rules[position].matcher);
      KeysOfNext(parse, rules, position);
    }
  }

  lemma {:induction false} ReportNext(parse: NetParser, rules: seq<TableRule>, n: nat, out: map<string, string>,
                                      covering: Option<nat>)
    requires DistinctIds(rules) && n < |rules| && ReportExact(parse, rules, n, out)
    requires EarliestCoverIs(parse, KeysOf(parse, rules[..n]), rules[n].matcher, covering)
    ensures covering.Some? ==> covering.value < n
    ensures ReportExact(parse, rules, n + 1,
                        if covering.Some? then out[rules[n].id := rules[covering.value].id] else out)
  {
    IndexEqualsScan(parse, rules, n, covering);
    ReportStep(parse, rules, n, out, if covering.Some? then out[rules[n].id := rules[covering.value].id] else out);
  }

  lemma {:induction false} ReportStep(parse: NetParser, rules: seq<TableRule>, n: nat, out: map<string, string>,
                                      next: map<string, string>)
    requires DistinctIds(rules) && n < |rules| && ReportExact(parse, rules, n, out)
    requires var r := EarliestCover(parse, rules, n); next == if r.Some? then out[rules[n].id := rules[r.value].id]
                                                                else out
    ensures ReportExact(parse, rules, n + 1, next)
  {
    forall j | 0 <= j < n + 1 ensures ReportsRule(parse, rules, j, next) {
      if j < n {
        assert ReportsRule(parse, rules, j, out);
        assert rules[j].id != rules[n].id;
      }
    }
  }
}
