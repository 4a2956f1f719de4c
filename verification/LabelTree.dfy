/** The ordinary tree of labels that a succinct domain set encodes, and what it stores. */
module LabelTree {
  import opened Common

  const PREFIX_LABEL: byte := 0x0D
  const ROOT_LABEL: byte := 0x0A
  const DOT: byte := 0x2E

  datatype Edge = Edge(sym: byte, child: Tree)
  datatype Tree = Node(leaf: bool, edges: seq<Edge>)

  predicate IsMarker(b: byte) {
    b == PREFIX_LABEL || b == ROOT_LABEL
  }

  // ---- the plain walk ----

  datatype Step = Hit | Miss | Down(k: nat)

  /** One node's edges, from the `k`-th on, read against the key byte `current`. */
  function Scan(t: Tree, current: byte, k: nat): (s: Step)
    ensures s.Down? ==> k <= s.k < |t.edges| && t.edges[s.k].sym == current
    decreases |t.edges| - k
  {
    if k >= |t.edges| then Miss
    else
      var e := t.edges[k];
      if e.sym == PREFIX_LABEL then Hit
      else if e.sym == ROOT_LABEL && current == DOT && e.child.leaf then Hit
      else if e.sym == current then Down(k)
      else Scan(t, current, k + 1)
  }

  predicate Walk(t: Tree, key: seq<byte>)
    decreases |key|
  {
    if key == [] then
      t.leaf || exists k :: 0 <= k < |t.edges| && IsMarker(t.edges[k].sym)
    else
      match Scan(t, key[0], 0)
      case Hit => true
      case Miss => false
      case Down(k) => Walk(t.edges[k].child, key[1..])
  }

  // ---- what a tree stores, and what a stored entry means ----

  /** Some path from `t` spelling `s` ends at a leaf. */
  ghost predicate Stores(t: Tree, s: seq<byte>)
    decreases |s|
  {
    if s == [] then t.leaf
    else exists k :: 0 <= k < |t.edges| && t.edges[k].sym == s[0] && Stores(t.edges[k].child, s[1..])
  }

  /** The meaning of one stored entry: a final marker turns it into a prefix of the (reversed) key. */
  predicate EntryMatches(s: seq<byte>, key: seq<byte>) {
    if s != [] && s[|s| - 1] == PREFIX_LABEL then s[..|s| - 1] <= key
    else if s != [] && s[|s| - 1] == ROOT_LABEL then
      key == s[..|s| - 1] || s[..|s| - 1] + [DOT] <= key
    else key == s
  }

  /** What the writer of the format guarantees: sorted distinct labels put the two control-character
      markers first, and a marker always ends its entry. */
  ghost predicate WellMarked(t: Tree) {
    && (forall i, j :: 0 <= i < j < |t.edges| ==> t.edges[i].sym != t.edges[j].sym)
    && (forall i, j :: 0 <= i < j < |t.edges| && IsMarker(t.edges[j].sym) ==> IsMarker(t.edges[i].sym))
    && (forall i :: 0 <= i < |t.edges| && IsMarker(t.edges[i].sym) ==> t.edges[i].child == Node(true, []))
    && (forall e | e in t.edges :: WellMarked(e.child))
  }

  predicate NoMarkers(key: seq<byte>) {
    forall i :: 0 <= i < |key| ==> !IsMarker(key[i])
  }

  lemma {:induction false} ScanReaches(t: Tree, current: byte, k: nat, target: nat)
    requires WellMarked(t) && !IsMarker(current)
    requires k <= target < |t.edges| && t.edges[target].sym == current
    ensures Scan(t, current, k) != Miss
    ensures Scan(t, current, k).Down? ==> Scan(t, current, k).k == target
    decreases target - k
  {
    if k < target {
      ScanReaches(t, current, k + 1, target);
    }
  }

  lemma {:induction false} ScanHits(t: Tree, current: byte, k: nat, target: nat)
    requires WellMarked(t) && !IsMarker(current)
    requires k <= target < |t.edges|
    requires t.edges[target].sym == PREFIX_LABEL || (t.edges[target].sym == ROOT_LABEL && current == DOT)
    ensures Scan(t, current, k) == Hit
    decreases target - k
  {
    if k < target {
      ScanHits(t, current, k + 1, target);
    }
  }

  lemma {:induction false} HitHasMarker(t: Tree, current: byte, k: nat) returns (m: nat)
    requires Scan(t, current, k) == Hit
    ensures m < |t.edges|
    ensures t.edges[m].sym == PREFIX_LABEL || (t.edges[m].sym == ROOT_LABEL && current == DOT)
    decreases |t.edges| - k
  {
    var e := t.edges[k];
    if e.sym == PREFIX_LABEL || (e.sym == ROOT_LABEL && current == DOT && e.child.leaf) {
      m := k;
    } else {
      m := HitHasMarker(t, current, k + 1);
    }
  }

  lemma {:induction false} StoresStep(t: Tree, k: nat, s: seq<byte>)
    requires k < |t.edges| && Stores(t.edges[k].child, s)
    ensures Stores(t, [t.edges[k].sym] + s)
  {
    assert ([t.edges[k].sym] + s)[1..] == s;
  }

  lemma {:induction false} MarkerEntry(t: Tree, m: nat)
    requires WellMarked(t) && m < |t.edges| && IsMarker(t.edges[m].sym)
    ensures Stores(t, [t.edges[m].sym])
  {
    StoresStep(t, m, []);
  }

  lemma {:induction false} EntryMatchesStep(b: byte, s: seq<byte>, key: seq<byte>)
    requires EntryMatches(s, key)
    requires s != [] || !IsMarker(b)
    ensures EntryMatches([b] + s, [b] + key)
  {
    if s != [] {
      assert ([b] + s)[..|s|] == [b] + s[..|s| - 1];
    }
  }

  /** A successful walk is explained by a stored entry. */
  lemma {:induction false} WalkIsExplained(t: Tree, key: seq<byte>) returns (s: seq<byte>)
    requires WellMarked(t) && NoMarkers(key) && Walk(t, key)
    ensures Stores(t, s) && EntryMatches(s, key)
    decreases |key|
  {
    if key == [] {
      if t.leaf {
        s := [];
      } else {
        var m :| 0 <= m < |t.edges| && IsMarker(t.edges[m].sym);
        MarkerEntry(t, m);
        s := [t.edges[m].sym];
      }
    } else {
      match Scan(t, key[0], 0)
      case Hit =>
        var m := HitHasMarker(t, key[0], 0);
        MarkerEntry(t, m);
        s := [t.edges[m].sym];
      case Down(k) =>
        var rest := WalkIsExplained(t.edges[k].child, key[1..]);
        StoresStep(t, k, rest);
        EntryMatchesStep(key[0], rest, key[1..]);
        s := [key[0]] + rest;
        assert key == [key[0]] + key[1..];
    }
  }

  /** Every stored entry that matches a key makes the walk succeed. */
  lemma {:induction false} StoredIsFound(t: Tree, key: seq<byte>, s: seq<byte>)
    requires WellMarked(t) && NoMarkers(key) && Stores(t, s) && EntryMatches(s, key)
    ensures Walk(t, key)
    decreases |key|
  {
    if s != [] {
      var k :| 0 <= k < |t.edges| && t.edges[k].sym == s[0] && Stores(t.edges[k].child, s[1..]);
      if IsMarker(s[0]) {
        assert t.edges[k].child == Node(true, []);
        assert s == [s[0]];
        if key != [] {
          ScanHits(t, key[0], 0, k);
        }
      } else {
        assert s[|s| - 1] == s[0] || s[1..][|s[1..]| - 1] == s[|s| - 1];
        assert key != [] && key[0] == s[0];
        ScanReaches(t, key[0], 0, k);
        assert EntryMatches(s[1..], key[1..]) by {
          EntryMatchesTail(s, key);
        }
        StoredIsFound(t.edges[k].child, key[1..], s[1..]);
      }
    }
  }

  lemma {:induction false} EntryMatchesTail(s: seq<byte>, key: seq<byte>)
    requires s != [] && !IsMarker(s[0]) && key != [] && EntryMatches(s, key)
    ensures EntryMatches(s[1..], key[1..])
  {
    var t := s[1..];
    if t != [] {
      assert t[|t| - 1] == s[|s| - 1];
      assert t[..|t| - 1] == s[..|s| - 1][1..];
      assert (s[..|s| - 1] + [DOT])[1..] == t[..|t| - 1] + [DOT];
    }
  }

  /** On a tree written by the format's rules, the walk answers exactly "does some stored entry match". */
  lemma {:induction false} WalkMeansSomeEntryMatches(t: Tree, key: seq<byte>)
    requires WellMarked(t) && NoMarkers(key)
    ensures Walk(t, key) <==> exists s :: Stores(t, s) && EntryMatches(s, key)
  {
    if Walk(t, key) {
      var s := WalkIsExplained(t, key);
    }
    if s :| Stores(t, s) && EntryMatches(s, key) {
      StoredIsFound(t, key, s);
    }
  }

  // ---- the same in terms of domains ----

  datatype DomainEntry =
    | Exact(domain: seq<byte>)         // the domain itself
    | DotSuffix(domain: seq<byte>)     // the domain or any subdomain, on a dot boundary
    | AnyPrefix(suffix: seq<byte>)     // anything ending in the suffix

  function Reverse(s: seq<byte>): (r: seq<byte>)
    ensures |r| == |s|
    ensures forall i :: 0 <= i < |s| ==> r[i] == s[|s| - 1 - i]
  {
    if s == [] then [] else Reverse(s[1..]) + [s[0]]
  }

  function EntryKey(e: DomainEntry): seq<byte> {
    match e
    case Exact(d) => Reverse(d)
    case DotSuffix(d) => Reverse(d) + [ROOT_LABEL]
    case AnyPrefix(d) => Reverse(d) + [PREFIX_LABEL]
  }

  predicate EndsWith(s: seq<byte>, suffix: seq<byte>) {
    |suffix| <= |s| && s[|s| - |suffix|..] == suffix
  }

  predicate DomainMatches(e: DomainEntry, domain: seq<byte>) {
    match e
    case Exact(d) => domain == d
    case DotSuffix(d) => domain == d || EndsWith(domain, [DOT] + d)
    case AnyPrefix(d) => EndsWith(domain, d)
  }

  lemma {:induction false} ReverseInvolutive(s: seq<byte>)
    ensures Reverse(Reverse(s)) == s
  {
  }

  lemma {:induction false} PrefixIsSuffixReversed(p: seq<byte>, s: seq<byte>)
    ensures Reverse(p) <= Reverse(s) <==> EndsWith(s, p)
  {
    if Reverse(p) <= Reverse(s) {
      assert forall i :: 0 <= i < |p| ==> s[|s| - |p| + i] == p[i] by {
        forall i | 0 <= i < |p|
          ensures s[|s| - |p| + i] == p[i]
        {
          assert Reverse(p)[|p| - 1 - i] == Reverse(s)[|p| - 1 - i];
        }
      }
    }
  }

  predicate PlainEntry(e: DomainEntry) {
    NoMarkers(if e.AnyPrefix? then e.suffix else e.domain)
  }

  lemma {:induction false} ReverseInjective(a: seq<byte>, b: seq<byte>)
    ensures Reverse(a) == Reverse(b) <==> a == b
  {
    ReverseInvolutive(a);
    ReverseInvolutive(b);
  }

  lemma {:induction false} ReverseNoMarkers(s: seq<byte>)
    ensures NoMarkers(s) ==> NoMarkers(Reverse(s))
  {
  }

  lemma {:induction false} ExactMeaning(d: seq<byte>, domain: seq<byte>)
    requires NoMarkers(d)
    ensures EntryMatches(Reverse(d), Reverse(domain)) <==> domain == d
  {
    ReverseNoMarkers(d);
    ReverseInjective(d, domain);
  }

  lemma {:induction false} DotSuffixMeaning(d: seq<byte>, domain: seq<byte>)
    ensures EntryMatches(Reverse(d) + [ROOT_LABEL], Reverse(domain))
            <==> (domain == d || EndsWith(domain, [DOT] + d))
  {
    ReverseInjective(d, domain);
    assert (Reverse(d) + [ROOT_LABEL])[..|d|] == Reverse(d);
    assert ([DOT] + d)[1..] == d;
    PrefixIsSuffixReversed([DOT] + d, domain);
  }

  lemma {:induction false} AnyPrefixMeaning(d: seq<byte>, domain: seq<byte>)
    ensures EntryMatches(Reverse(d) + [PREFIX_LABEL], Reverse(domain)) <==> EndsWith(domain, d)
  {
    assert (Reverse(d) + [PREFIX_LABEL])[..|d|] == Reverse(d);
    PrefixIsSuffixReversed(d, domain);
  }

  lemma {:induction false} EntryKeyMeaning(e: DomainEntry, domain: seq<byte>)
    requires PlainEntry(e)
    ensures EntryMatches(EntryKey(e), Reverse(domain)) <==> DomainMatches(e, domain)
  {
    match e
    case Exact(d) => ExactMeaning(d, domain);
    case DotSuffix(d) => DotSuffixMeaning(d, domain);
    case AnyPrefix(d) => AnyPrefixMeaning(d, domain);
  }

  /** Inside a well-marked tree a marker can only be the last byte of a stored key. */
  lemma {:induction false} StoredHasMarkerLast(t: Tree, s: seq<byte>)
    requires WellMarked(t) && Stores(t, s)
    ensures s == [] || NoMarkers(s[..|s| - 1])
    decreases |s|
  {
    if s != [] {
      var k :| 0 <= k < |t.edges| && t.edges[k].sym == s[0] && Stores(t.edges[k].child, s[1..]);
      StoredHasMarkerLast(t.edges[k].child, s[1..]);
      if s[1..] != [] {
        assert !IsMarker(s[0]);
        assert s[..|s| - 1] == [s[0]] + s[1..][..|s[1..]| - 1];
      }
    }
  }

  lemma {:induction false} EntryOf(s: seq<byte>) returns (e: DomainEntry)
    requires s == [] || NoMarkers(s[..|s| - 1])
    ensures EntryKey(e) == s && PlainEntry(e)
  {
    if s != [] && IsMarker(s[|s| - 1]) {
      var body := s[..|s| - 1];
      ReverseInvolutive(body);
      ReverseNoMarkers(body);
      e := if s[|s| - 1] == PREFIX_LABEL then AnyPrefix(Reverse(body)) else DotSuffix(Reverse(body));
      assert s == body + [s[|s| - 1]];
    } else {
      ReverseInvolutive(s);
      assert NoMarkers(s) by {
        if s != [] {
          assert s == s[..|s| - 1] + [s[|s| - 1]];
        }
      }
      ReverseNoMarkers(s);
      e := Exact(Reverse(s));
    }
  }

  /** The documented meaning of the two markers: a domain is in the set exactly when it is a stored
      domain, lies under a stored dot-boundary suffix, or ends in a stored raw suffix. */
  lemma {:induction false} WalkMeansDomainMatch(t: Tree, domain: seq<byte>)
    requires WellMarked(t) && NoMarkers(domain)
    ensures Walk(t, Reverse(domain)) <==>
            exists e: DomainEntry :: PlainEntry(e) && Stores(t, EntryKey(e)) && DomainMatches(e, domain)
  {
    ReverseNoMarkers(domain);
    var key := Reverse(domain);
    if Walk(t, key) {
      var s := WalkIsExplained(t, key);
      StoredHasMarkerLast(t, s);
      var e := EntryOf(s);
      EntryKeyMeaning(e, domain);
    }
    if e: DomainEntry :| PlainEntry(e) && Stores(t, EntryKey(e)) && DomainMatches(e, domain) {
      EntryKeyMeaning(e, domain);
      StoredIsFound(t, key, EntryKey(e));
    }
  }
}
