/** Reading a decompressed `.srs` body: varints, length-prefixed payloads, items and nested rules, each against the
    coding it undoes. */
module SrsReader {
  import opened Common

  /** A value read and the bytes left over, or why the file is refused. */
  type Reads<T> = Result<(T, seq<byte>), string>

  // ---- primitives ----

  function Take(s: seq<byte>, n: nat): (r: Reads<seq<byte>>)
    ensures r.Ok? ==> |r.value.1| <= |s|
  {
    if n <= |s| then Ok((s[..n], s[n..])) else Err("truncated rule-set file")
  }

  const MAX_PLACES: nat := 10

  /** Seven bits a byte, low ones first; more than ten bytes overflow. `place` counts the bytes before. */
  function Uvarint(s: seq<byte>, place: nat): (r: Reads<nat>)
    requires place < MAX_PLACES
    ensures r.Ok? ==> |r.value.1| < |s|
    decreases MAX_PLACES - place
  {
    if s == [] then Err("truncated rule-set file")
    else if s[0] < 128 then Ok((s[0] as nat, s[1..]))
    else if place == MAX_PLACES - 1 then Err("uvarint overflow")
    else
      match Uvarint(s[1..], place + 1)
      case Err(e) => Err(e)
      case Ok((v, rest)) => Ok(((s[0] % 128) as nat + 128 * v, rest))
  }

  /** The canonical coding. */
  function PutUvarint(v: nat): (s: seq<byte>)
    ensures s != []
  {
    if v < 128 then [v as byte] else [(v % 128 + 128) as byte] + PutUvarint(v / 128)
  }

  /** Numbers the reader can take back: at most ten bytes, which covers every 64-bit value. */
  predicate Fits(v: nat) {
    |PutUvarint(v)| <= MAX_PLACES
  }

  lemma {:induction false} UvarintRoundTrip(v: nat, rest: seq<byte>, place: nat)
    requires place + |PutUvarint(v)| <= MAX_PLACES
    ensures Uvarint(PutUvarint(v) + rest, place) == Ok((v, rest))
    decreases v
  {
    var s := PutUvarint(v) + rest;
    if v < 128 {
      assert s[1..] == rest;
    } else {
      assert s[1..] == PutUvarint(v / 128) + rest;
      assert s[0] % 128 == (v % 128) as byte;
      UvarintRoundTrip(v / 128, rest, place + 1);
    }
  }

  /** `_read_exact(r, _read_uvarint(r))` */
  function Block(s: seq<byte>): (r: Reads<seq<byte>>)
    ensures r.Ok? ==> |r.value.1| < |s|
  {
    match Uvarint(s, 0)
    case Err(e) => Err(e)
    case Ok((n, rest)) => Take(rest, n)
  }

  function PutBlock(b: seq<byte>): seq<byte> {
    PutUvarint(|b|) + b
  }

  lemma {:induction false} BlockRoundTrip(b: seq<byte>, rest: seq<byte>)
    requires Fits(|b|)
    ensures Block(PutBlock(b) + rest) == Ok((b, rest))
  {
    assert PutBlock(b) + rest == PutUvarint(|b|) + (b + rest);
    UvarintRoundTrip(|b|, b + rest, 0);
    assert (b + rest)[..|b|] == b && (b + rest)[|b|..] == rest;
  }

  /** `n` length-prefixed strings. */
  function Blocks(s: seq<byte>, n: nat): (r: Reads<seq<seq<byte>>>)
    ensures r.Ok? ==> |r.value.1| <= |s|
    decreases n
  {
    if n == 0 then Ok(([], s))
    else
      match Block(s)
      case Err(e) => Err(e)
      case Ok((b, more)) =>
        match Blocks(more, n - 1)
        case Err(e) => Err(e)
        case Ok((bs, rest)) => Ok(([b] + bs, rest))
  }

  function PutBlocks(bs: seq<seq<byte>>): seq<byte> {
    if bs == [] then [] else PutBlock(bs[0]) + PutBlocks(bs[1..])
  }

  predicate AllFit(bs: seq<seq<byte>>) {
    Fits(|bs|) && forall i :: 0 <= i < |bs| ==> Fits(|bs[i]|)
  }

  lemma {:induction false} BlocksRoundTrip(bs: seq<seq<byte>>, rest: seq<byte>)
    requires forall i :: 0 <= i < |bs| ==> Fits(|bs[i]|)
    ensures Blocks(PutBlocks(bs) + rest, |bs|) == Ok((bs, rest))
  {
    if bs == [] {
      assert PutBlocks(bs) + rest == rest;
    } else {
      assert PutBlocks(bs) + rest == PutBlock(bs[0]) + (PutBlocks(bs[1..]) + rest);
      BlockRoundTrip(bs[0], PutBlocks(bs[1..]) + rest);
      BlocksRoundTrip(bs[1..], rest);
      assert [bs[0]] + bs[1..] == bs;
    }
  }

  function StringList(s: seq<byte>): (r: Reads<seq<seq<byte>>>)
    ensures r.Ok? ==> |r.value.1| < |s|
  {
    match Uvarint(s, 0)
    case Err(e) => Err(e)
    case Ok((n, rest)) => Blocks(rest, n)
  }

  function PutStringList(bs: seq<seq<byte>>): seq<byte> {
    PutUvarint(|bs|) + PutBlocks(bs)
  }

  lemma {:induction false} StringListRoundTrip(bs: seq<seq<byte>>, rest: seq<byte>)
    requires AllFit(bs)
    ensures StringList(PutStringList(bs) + rest) == Ok((bs, rest))
  {
    assert PutStringList(bs) + rest == PutUvarint(|bs|) + (PutBlocks(bs) + rest);
    UvarintRoundTrip(|bs|, PutBlocks(bs) + rest, 0);
    BlocksRoundTrip(bs, rest);
  }

  function Times(a: nat, b: nat): nat {
    a * b
  }

  /** A counted run of fixed-width elements, kept as raw bytes. */
  function Run(s: seq<byte>, width: nat): (r: Reads<seq<byte>>)
    ensures r.Ok? ==> |r.value.1| < |s|
  {
    match Uvarint(s, 0)
    case Err(e) => Err(e)
    case Ok((n, rest)) => Take(rest, Times(n, width))
  }

  function PutRun(raw: seq<byte>, n: nat): seq<byte> {
    PutUvarint(n) + raw
  }

  lemma {:induction false} RunRoundTrip(raw: seq<byte>, n: nat, width: nat, rest: seq<byte>)
    requires |raw| == Times(n, width) && Fits(n)
    ensures Run(PutRun(raw, n) + rest, width) == Ok((raw, rest))
  {
    assert PutRun(raw, n) + rest == PutUvarint(n) + (raw + rest);
    UvarintRoundTrip(n, raw + rest, 0);
    assert (raw + rest)[..|raw|] == raw && (raw + rest)[|raw|..] == rest;
  }

  // ---- address ranges ----

  function BigEndian(bs: seq<byte>): nat {
    if bs == [] then 0 else 256 * BigEndian(bs[..|bs| - 1]) + bs[|bs| - 1] as nat
  }

  /** The low `width` bytes of `v`, high ones first. */
  function PutBigEndian(v: nat, width: nat): (bs: seq<byte>)
    ensures |bs| == width
  {
    if width == 0 then [] else PutBigEndian(v / 256, width - 1) + [(v % 256) as byte]
  }

  function Pow256(k: nat): nat {
    if k == 0 then 1 else 256 * Pow256(k - 1)
  }

  lemma {:induction false} BigEndianRoundTrip(v: nat, width: nat)
    requires v < Pow256(width)
    ensures BigEndian(PutBigEndian(v, width)) == v
  {
    if width > 0 {
      BigEndianRoundTrip(v / 256, width - 1);
      assert PutBigEndian(v, width)[..width - 1] == PutBigEndian(v / 256, width - 1);
    }
  }

  type Span = (seq<byte>, seq<byte>)

  predicate GoodSpan(p: Span) {
    |p.0| == |p.1| && (|p.0| == 4 || |p.0| == 16)
  }

  function ReadSpan(s: seq<byte>): (r: Reads<Span>)
    ensures r.Ok? ==> |r.value.1| < |s|
  {
    match Block(s)
    case Err(e) => Err(e)
    case Ok((a, more)) =>
      match Block(more)
      case Err(e) => Err(e)
      case Ok((b, rest)) => if GoodSpan((a, b)) then Ok(((a, b), rest)) else Err("malformed IP range")
  }

  function Spans(s: seq<byte>, n: nat): (r: Reads<seq<Span>>)
    ensures r.Ok? ==> |r.value.1| <= |s|
    decreases n
  {
    if n == 0 then Ok(([], s))
    else
      match ReadSpan(s)
      case Err(e) => Err(e)
      case Ok((p, more)) =>
        match Spans(more, n - 1)
        case Err(e) => Err(e)
        case Ok((ps, rest)) => Ok(([p] + ps, rest))
  }

  lemma {:induction false} SpanRoundTrip(p: Span, rest: seq<byte>)
    requires GoodSpan(p)
    ensures ReadSpan(PutBlock(p.0) + PutBlock(p.1) + rest) == Ok((p, rest))
  {
    assert PutBlock(p.0) + PutBlock(p.1) + rest == PutBlock(p.0) + (PutBlock(p.1) + rest);
    assert |PutUvarint(4)| == 1 && |PutUvarint(16)| == 1;
    BlockRoundTrip(p.0, PutBlock(p.1) + rest);
    BlockRoundTrip(p.1, rest);
  }

  function PutSpans(ps: seq<Span>): seq<byte> {
    if ps == [] then [] else PutBlock(ps[0].0) + PutBlock(ps[0].1) + PutSpans(ps[1..])
  }

  lemma {:induction false} SpansRoundTrip(ps: seq<Span>, rest: seq<byte>)
    requires forall i :: 0 <= i < |ps| ==> GoodSpan(ps[i])
    ensures Spans(PutSpans(ps) + rest, |ps|) == Ok((ps, rest))
  {
    if ps == [] {
      assert PutSpans(ps) + rest == rest;
    } else {
      var tail := PutSpans(ps[1..]) + rest;
      assert PutSpans(ps) + rest == PutBlock(ps[0].0) + PutBlock(ps[0].1) + tail;
      SpanRoundTrip(ps[0], tail);
      SpansRoundTrip(ps[1..], rest);
      assert [ps[0]] + ps[1..] == ps;
    }
  }

  /** A big-endian count of the given width, then the spans. */
  function CountedSpans(s: seq<byte>, width: nat): (r: Reads<seq<Span>>)
    ensures r.Ok? ==> |r.value.1| <= |s|
  {
    match Take(s, width)
    case Err(e) => Err(e)
    case Ok((count, rest)) => Spans(rest, BigEndian(count))
  }

  lemma {:induction false} CountedSpansRoundTrip(ps: seq<Span>, width: nat, rest: seq<byte>)
    requires |ps| < Pow256(width) && forall i :: 0 <= i < |ps| ==> GoodSpan(ps[i])
    ensures CountedSpans(PutBigEndian(|ps|, width) + PutSpans(ps) + rest, width) == Ok((ps, rest))
  {
    var count, tail := PutBigEndian(|ps|, width), PutSpans(ps) + rest;
    BigEndianRoundTrip(|ps|, width);
    assert count + PutSpans(ps) + rest == count + tail;
    assert (count + tail)[..width] == count && (count + tail)[width..] == tail;
    SpansRoundTrip(ps, rest);
  }

  const COUNT_WIDTH: nat := 8

  /** `_read_ip_ranges`: a version byte, an 8-byte count, then the spans. */
  function IpRanges(s: seq<byte>): (r: Reads<seq<Span>>)
    ensures r.Ok? ==> |r.value.1| < |s|
  {
    if s == [] then Err("truncated rule-set file")
    else if s[0] != 1 then Err("unknown IP set version")
    else CountedSpans(s[1..], COUNT_WIDTH)
  }

  function PutIpRanges(ps: seq<Span>): seq<byte> {
    [1] + PutBigEndian(|ps|, COUNT_WIDTH) + PutSpans(ps)
  }

  lemma {:induction false} IpRangesRoundTrip(ps: seq<Span>, rest: seq<byte>)
    requires |ps| < Pow256(COUNT_WIDTH) && forall i :: 0 <= i < |ps| ==> GoodSpan(ps[i])
    ensures IpRanges(PutIpRanges(ps) + rest) == Ok((ps, rest))
  {
    CountedSpansRoundTrip(ps, COUNT_WIDTH, rest);
    Prefixed(1, PutBigEndian(|ps|, COUNT_WIDTH), PutSpans(ps), rest);
  }

  lemma {:induction false} Prefixed(first: byte, a: seq<byte>, b: seq<byte>, rest: seq<byte>)
    ensures ([first] + a + b + rest)[0] == first && ([first] + a + b + rest)[1..] == a + b + rest
  {
  }

  // ---- items ----

  /** One item of a default rule, payload uninterpreted. Items no destination can answer keep their type. */
  datatype Item =
    | DomainSet(leaves: seq<byte>, bitmap: seq<byte>, labels: seq<byte>)
    | Texts(kind: byte, texts: seq<seq<byte>>)
    | Addresses(kind: byte, spans: seq<Span>)
    | Shorts(kind: byte, raw: seq<byte>)
    | NetworkTypes(raw: seq<byte>)
    | Flag(kind: byte)

  const ITEM_FINAL: byte := 0xFF
  const ITEM_DOMAIN: byte := 2
  const ITEM_NETWORK_TYPE: byte := 18

  predicate TextKind(k: byte) {
    k == 1 || k == 3 || k == 4 || k == 8 || k == 10 || 11 <= k <= 15 || k == 17
  }

  predicate AddressKind(k: byte) {
    k == 5 || k == 6
  }

  predicate ShortKind(k: byte) {
    k == 0 || k == 7 || k == 9
  }

  predicate FlagKind(k: byte) {
    k == 19 || k == 20
  }

  function DomainPayload(s: seq<byte>): (r: Reads<Item>)
    ensures r.Ok? ==> |r.value.1| < |s|
  {
    match Take(s, 1)
    case Err(e) => Err(e)
    case Ok((_, s1)) =>
      match Run(s1, 8)
      case Err(e) => Err(e)
      case Ok((leaves, s2)) =>
        match Run(s2, 8)
        case Err(e) => Err(e)
        case Ok((bitmap, s3)) =>
          match Block(s3)
          case Err(e) => Err(e)
          case Ok((labels, rest)) => Ok((DomainSet(leaves, bitmap, labels), rest))
  }

  /** The payload of an item of type `kind`; an unknown type refuses the file. */
  function ReadItem(kind: byte, s: seq<byte>): (r: Reads<Item>)
    ensures r.Ok? ==> |r.value.1| <= |s|
  {
    if kind == ITEM_DOMAIN then DomainPayload(s)
    else if TextKind(kind) then
      match StringList(s)
      case Err(e) => Err(e)
      case Ok((texts, rest)) => Ok((Texts(kind, texts), rest))
    else if AddressKind(kind) then
      match IpRanges(s)
      case Err(e) => Err(e)
      case Ok((spans, rest)) => Ok((Addresses(kind, spans), rest))
    else if ShortKind(kind) then
      match Run(s, 2)
      case Err(e) => Err(e)
      case Ok((raw, rest)) => Ok((Shorts(kind, raw), rest))
    else if kind == ITEM_NETWORK_TYPE then
      match Run(s, 1)
      case Err(e) => Err(e)
      case Ok((raw, rest)) => Ok((NetworkTypes(raw), rest))
    else if FlagKind(kind) then Ok((Flag(kind), s))
    else Err("unsupported rule item type")
  }

  function KindOf(i: Item): byte {
    match i
    case DomainSet(_, _, _) => ITEM_DOMAIN
    case NetworkTypes(_) => ITEM_NETWORK_TYPE
    case _ => i.kind
  }

  predicate GoodItem(i: Item) {
    match i
    case DomainSet(leaves, bitmap, labels) =>
      |leaves| % 8 == 0 && |bitmap| % 8 == 0 && Fits(|leaves| / 8) && Fits(|bitmap| / 8) && Fits(|labels|)
    case Texts(kind, texts) => TextKind(kind) && AllFit(texts)
    case Addresses(kind, spans) => AddressKind(kind) && |spans| < Pow256(COUNT_WIDTH)
                                   && forall k :: 0 <= k < |spans| ==> GoodSpan(spans[k])
    case Shorts(kind, raw) => ShortKind(kind) && |raw| % 2 == 0 && Fits(|raw| / 2)
    case NetworkTypes(raw) => Fits(|raw|)
    case Flag(kind) => FlagKind(kind)
  }

  function PutPayload(i: Item): seq<byte> {
    match i
    case DomainSet(leaves, bitmap, labels) => [0] + PutRun(leaves, |leaves| / 8) + PutRun(bitmap, |bitmap| / 8)
                                              + PutBlock(labels)
    case Texts(_, texts) => PutStringList(texts)
    case Addresses(_, spans) => PutIpRanges(spans)
    case Shorts(_, raw) => PutRun(raw, |raw| / 2)
    case NetworkTypes(raw) => PutRun(raw, |raw|)
    case Flag(_) => []
  }

  lemma {:induction false} DomainRoundTrip(leaves: seq<byte>, bitmap: seq<byte>, labels: seq<byte>, rest: seq<byte>)
    requires GoodItem(DomainSet(leaves, bitmap, labels))
    ensures DomainPayload(PutPayload(DomainSet(leaves, bitmap, labels)) + rest)
            == Ok((DomainSet(leaves, bitmap, labels), rest))
  {
    var a, b, c := PutRun(leaves, |leaves| / 8), PutRun(bitmap, |bitmap| / 8), PutBlock(labels);
    var s := [0] + a + b + c + rest;
    assert s[..1] == [0] && s[1..] == a + (b + (c + rest));
    RunRoundTrip(leaves, |leaves| / 8, 8, b + (c + rest));
    RunRoundTrip(bitmap, |bitmap| / 8, 8, c + rest);
    BlockRoundTrip(labels, rest);
  }

  lemma {:induction false} ItemRoundTrip(i: Item, rest: seq<byte>)
    requires GoodItem(i)
    ensures ReadItem(KindOf(i), PutPayload(i) + rest) == Ok((i, rest))
    ensures KindOf(i) != ITEM_FINAL
  {
    match i
    case DomainSet(leaves, bitmap, labels) => DomainRoundTrip(leaves, bitmap, labels, rest);
    case Texts(kind, texts) => StringListRoundTrip(texts, rest);
    case Addresses(kind, spans) => IpRangesRoundTrip(spans, rest);
    case Shorts(kind, raw) => RunRoundTrip(raw, |raw| / 2, 2, rest);
    case NetworkTypes(raw) => RunRoundTrip(raw, |raw|, 1, rest);
    case Flag(kind) => assert PutPayload(i) + rest == rest;
  }

  // ---- rules ----

  datatype Node = Default(items: seq<Item>, invert: bool) | Logical(isAnd: bool, rules: seq<Node>, invert: bool)

  function ReadFlag(s: seq<byte>): Reads<bool> {
    if s == [] then Err("truncated rule-set file") else Ok((s[0] != 0, s[1..]))
  }

  /** The item loop of a default rule, up to the final item. */
  function Items(s: seq<byte>): (r: Reads<(seq<Item>, bool)>)
    ensures r.Ok? ==> |r.value.1| < |s|
    decreases |s|
  {
    if s == [] then Err("truncated rule-set file")
    else if s[0] == ITEM_FINAL then
      match ReadFlag(s[1..])
      case Err(e) => Err(e)
      case Ok((invert, rest)) => Ok((([], invert), rest))
    else
      match ReadItem(s[0], s[1..])
      case Err(e) => Err(e)
      case Ok((item, more)) =>
        match Items(more)
        case Err(e) => Err(e)
        case Ok((done, rest)) => Ok((([item] + done.0, done.1), rest))
  }

  /** The byte that ends a logical rule. */
  function WithInvert(isAnd: bool, r: Reads<seq<Node>>): (w: Reads<Node>)
    ensures w.Ok? ==> r.Ok? && |w.value.1| <= |r.value.1|
  {
    match r
    case Err(e) => Err(e)
    case Ok((rules, last)) =>
      match ReadFlag(last)
      case Err(e) => Err(e)
      case Ok((invert, rest)) => Ok((Logical(isAnd, rules, invert), rest))
  }

  function ReadDefault(s: seq<byte>): (r: Reads<Node>)
    ensures r.Ok? ==> |r.value.1| < |s|
  {
    match Items(s)
    case Err(e) => Err(e)
    case Ok((done, rest)) => Ok((Default(done.0, done.1), rest))
  }

  /** `_read_rule` */
  function ReadRule(s: seq<byte>): (r: Reads<Node>)
    ensures r.Ok? ==> |r.value.1| < |s|
    decreases |s|, 0
  {
    if s == [] then Err("truncated rule-set file")
    else if s[0] == 0 then ReadDefault(s[1..])
    else if s[0] == 1 then ReadLogical(s[1..])
    else Err("unknown rule type")
  }

  function ReadLogical(s: seq<byte>): (r: Reads<Node>)
    ensures r.Ok? ==> |r.value.1| < |s|
    decreases |s|, 0
  {
    if s == [] then Err("truncated rule-set file")
    else if s[0] != 0 && s[0] != 1 then Err("unknown logical mode")
    else
      match Uvarint(s[1..], 0)
      case Err(e) => Err(e)
      case Ok((n, more)) => WithInvert(s[0] == 0, ReadRules(more, n))
  }

  function ReadRules(s: seq<byte>, n: nat): (r: Reads<seq<Node>>)
    ensures r.Ok? ==> |r.value.1| <= |s|
    decreases |s|, 1, n
  {
    if n == 0 then Ok(([], s))
    else
      match ReadRule(s)
      case Err(e) => Err(e)
      case Ok((node, more)) =>
        match ReadRules(more, n - 1)
        case Err(e) => Err(e)
        case Ok((nodes, rest)) => Ok(([node] + nodes, rest))
  }

  function PutFlag(b: bool): seq<byte> {
    if b then [1] else [0]
  }

  function PutItems(items: seq<Item>): seq<byte> {
    if items == [] then [] else [KindOf(items[0])] + PutPayload(items[0]) + PutItems(items[1..])
  }

  function PutRule(node: Node): seq<byte>
    decreases node, if node.Logical? then |node.rules| + 1 else 0
  {
    match node
    case Default(items, invert) => [0] + (PutItems(items) + ([ITEM_FINAL] + PutFlag(invert)))
    case Logical(isAnd, rules, invert) =>
      [1] + [if isAnd then 0 else 1] + (PutUvarint(|rules|) + (PutRulesFrom(node, 0) + PutFlag(invert)))
  }

  /** The nested rules of `node` from the `k`-th on. */
  function PutRulesFrom(node: Node, k: nat): seq<byte>
    requires node.Logical? && k <= |node.rules|
    decreases node, |node.rules| - k
  {
    if k == |node.rules| then [] else PutRule(node.rules[k]) + PutRulesFrom(node, k + 1)
  }

  predicate GoodNode(node: Node) {
    match node
    case Default(items, _) => forall i :: 0 <= i < |items| ==> GoodItem(items[i])
    case Logical(_, rules, _) => Fits(|rules|) && forall i :: 0 <= i < |rules| ==> GoodNode(rules[i])
  }

  lemma {:induction false} FlagRoundTrip(b: bool, rest: seq<byte>)
    ensures ReadFlag(PutFlag(b) + rest) == Ok((b, rest))
  {
    assert (PutFlag(b) + rest)[1..] == rest;
  }

  lemma {:induction false} ItemsStep(kind: byte, payload: seq<byte>, more: seq<byte>, item: Item, items: seq<Item>,
                                     invert: bool, rest: seq<byte>)
    requires kind != ITEM_FINAL && ReadItem(kind, payload + more) == Ok((item, more))
    requires Items(more) == Ok(((items, invert), rest))
    ensures Items([kind] + (payload + more)) == Ok((([item] + items, invert), rest))
  {
    var s := [kind] + (payload + more);
    assert s[0] == kind && s[1..] == payload + more;
  }

  lemma {:induction false} ItemsEnd(invert: bool, rest: seq<byte>)
    ensures Items([ITEM_FINAL] + PutFlag(invert) + rest) == Ok((([], invert), rest))
  {
    var s := [ITEM_FINAL] + PutFlag(invert) + rest;
    assert s[0] == ITEM_FINAL && s[1..] == PutFlag(invert) + rest;
    FlagRoundTrip(invert, rest);
  }

  lemma {:induction false} RegroupItem(a: seq<byte>, b: seq<byte>, c: seq<byte>, d: seq<byte>, e: seq<byte>)
    ensures a + b + c + d + e == a + (b + (c + d + e))
  {
  }

  lemma {:induction false} ItemsRoundTrip(items: seq<Item>, invert: bool, rest: seq<byte>)
    requires forall i :: 0 <= i < |items| ==> GoodItem(items[i])
    ensures Items(PutItems(items) + ([ITEM_FINAL] + PutFlag(invert)) + rest) == Ok(((items, invert), rest))
  {
    var tail := [ITEM_FINAL] + PutFlag(invert);
    var s := PutItems(items) + tail + rest;
    if items == [] {
      assert s == tail + rest;
      ItemsEnd(invert, rest);
    } else {
      var more := PutItems(items[1..]) + tail + rest;
      RegroupItem([KindOf(items[0])], PutPayload(items[0]), PutItems(items[1..]), tail, rest);
      ItemRoundTrip(items[0], more);
      ItemsRoundTrip(items[1..], invert, rest);
      ItemsStep(KindOf(items[0]), PutPayload(items[0]), more, items[0], items[1..], invert, rest);
      assert [items[0]] + items[1..] == items;
    }
  }

  lemma {:induction false} RuleByType(first: byte, body: seq<byte>)
    ensures first == 0 ==> ReadRule([first] + body) == ReadDefault(body)
    ensures first == 1 ==> ReadRule([first] + body) == ReadLogical(body)
  {
    assert ([first] + body)[1..] == body;
  }

  lemma {:induction false} LogicalRoundTrip(isAnd: bool, n: nat, nested: seq<byte>, rules: seq<Node>, invert: bool,
                                            rest: seq<byte>)
    requires Fits(n) && ReadRules(nested, n) == Ok((rules, PutFlag(invert) + rest))
    ensures ReadLogical([if isAnd then 0 else 1] + (PutUvarint(n) + nested))
            == Ok((Logical(isAnd, rules, invert), rest))
  {
    var s := [if isAnd then 0 else 1] + (PutUvarint(n) + nested);
    assert s[1..] == PutUvarint(n) + nested;
    UvarintRoundTrip(n, nested, 0);
    FlagRoundTrip(invert, rest);
  }

  /** Whatever the nesting, reading a written rule gives the rule back and leaves exactly what followed it. */
  lemma {:induction false} RuleRoundTrip(node: Node, rest: seq<byte>)
    requires GoodNode(node)
    ensures ReadRule(PutRule(node) + rest) == Ok((node, rest))
    decreases node, if node.Logical? then |node.rules| + 1 else 0
  {
    match node
    case Default(items, invert) => DefaultRoundTrip(items, invert, rest);
    case Logical(isAnd, rules, invert) =>
      RulesRoundTrip(node, 0, PutFlag(invert) + rest);
      assert rules[0..] == rules;
      NestedRoundTrip(node, rest);
  }

  lemma {:induction false} DefaultRoundTrip(items: seq<Item>, invert: bool, rest: seq<byte>)
    requires GoodNode(Default(items, invert))
    ensures ReadRule(PutRule(Default(items, invert)) + rest) == Ok((Default(items, invert), rest))
  {
    var body := PutItems(items) + ([ITEM_FINAL] + PutFlag(invert));
    ItemsRoundTrip(items, invert, rest);
    ItemsMakeRule(body + rest, items, invert, rest);
    RegroupRule([0], body, rest);
  }

  lemma {:induction false} ItemsMakeRule(s: seq<byte>, items: seq<Item>, invert: bool, rest: seq<byte>)
    requires Items(s) == Ok(((items, invert), rest))
    ensures ReadRule([0] + s) == Ok((Default(items, invert), rest))
  {
    RuleByType(0, s);
  }

  lemma {:induction false} NestedRoundTrip(node: Node, rest: seq<byte>)
    requires node.Logical? && Fits(|node.rules|)
    requires ReadRules(PutRulesFrom(node, 0) + (PutFlag(node.invert) + rest), |node.rules|)
             == Ok((node.rules, PutFlag(node.invert) + rest))
    ensures ReadRule(PutRule(node) + rest) == Ok((node, rest))
  {
    var mode, count, nested := [if node.isAnd then 0 else 1], PutUvarint(|node.rules|), PutRulesFrom(node, 0);
    LogicalRoundTrip(node.isAnd, |node.rules|, nested + (PutFlag(node.invert) + rest), node.rules, node.invert, rest);
    RuleByType(1, mode + (count + (nested + (PutFlag(node.invert) + rest))));
    Regroup([1], mode, count, nested, PutFlag(node.invert), rest);
  }

  lemma {:induction false} Regroup(a: seq<byte>, b: seq<byte>, c: seq<byte>, d: seq<byte>, e: seq<byte>, f: seq<byte>)
    ensures a + b + (c + (d + e)) + f == a + (b + (c + (d + (e + f))))
  {
  }

  lemma {:induction false} ConsSlice(nodes: seq<Node>, k: nat)
    requires k < |nodes|
    ensures [nodes[k]] + nodes[k + 1..] == nodes[k..]
  {
  }

  lemma {:induction false} RulesStep(first: seq<byte>, more: seq<byte>, n: nat, node: Node, nodes: seq<Node>,
                                     rest: seq<byte>)
    requires n > 0 && ReadRule(first + more) == Ok((node, more)) && ReadRules(more, n - 1) == Ok((nodes, rest))
    ensures ReadRules(first + more, n) == Ok(([node] + nodes, rest))
  {
  }

  lemma {:induction false} RegroupRule(a: seq<byte>, b: seq<byte>, c: seq<byte>)
    ensures a + b + c == a + (b + c)
  {
  }

  lemma {:induction false} NoMoreRules(node: Node, rest: seq<byte>)
    requires node.Logical?
    ensures ReadRules(PutRulesFrom(node, |node.rules|) + rest, 0) == Ok((node.rules[|node.rules|..], rest))
  {
    assert PutRulesFrom(node, |node.rules|) + rest == rest && node.rules[|node.rules|..] == [];
  }

  lemma {:induction false} RulesRoundTrip(node: Node, k: nat, rest: seq<byte>)
    requires node.Logical? && k <= |node.rules| && GoodNode(node)
    ensures ReadRules(PutRulesFrom(node, k) + rest, |node.rules| - k) == Ok((node.rules[k..], rest))
    decreases node, |node.rules| - k
  {
    if k == |node.rules| {
      NoMoreRules(node, rest);
    } else {
      var first, more := PutRule(node.rules[k]), PutRulesFrom(node, k + 1) + rest;
      assert PutRulesFrom(node, k) + rest == first + more by {
        RegroupRule(first, PutRulesFrom(node, k + 1), rest);
      }
      RuleRoundTrip(node.rules[k], more);
      RulesRoundTrip(node, k + 1, rest);
      RulesStep(first, more, |node.rules| - k, node.rules[k], node.rules[k + 1..], rest);
      ConsSlice(node.rules, k);
    }
  }

  // ---- the coding itself, byte by byte ----

  lemma {:induction false} NumbersAsWritten()
    ensures PutUvarint(300) == [0xAC, 0x02] && PutUvarint(1) == [1] && PutUvarint(2) == [2] && PutUvarint(4) == [4]
    ensures PutBigEndian(1, 8) == [0, 0, 0, 0, 0, 0, 0, 1] && PutBigEndian(258, 2) == [1, 2]
  {
  }

  lemma {:induction false} KeywordAsWritten(text: seq<byte>)
    requires |text| == 2
    ensures PutPayload(Texts(3, [text])) == [1, 2] + text
  {
    NumbersAsWritten();
    assert PutBlocks([text]) == PutBlock(text);
  }

  /** The version, eight bytes of count, then both ends with their lengths. */
  lemma {:induction false} RangeAsWritten(first: seq<byte>, last: seq<byte>)
    requires |first| == 4 == |last|
    ensures IpRanges([1] + [0, 0, 0, 0, 0, 0, 0, 1] + ([4] + first + ([4] + last))) == Ok(([(first, last)], []))
  {
    NumbersAsWritten();
    var spans: seq<Span> := [(first, last)];
    assert PutSpans(spans) == PutBlock(first) + PutBlock(last);
    IpRangesRoundTrip(spans, []);
    assert PutIpRanges(spans) + [] == PutIpRanges(spans);
  }

  lemma {:induction false} PortAsWritten(raw: seq<byte>)
    requires |raw| == 2
    ensures PutPayload(Shorts(9, raw)) == [1] + raw
  {
    NumbersAsWritten();
  }

  /** The items of a rule by their type bytes: a keyword, a port, a flag. */
  lemma {:induction false} ItemsAsWritten(text: seq<byte>, raw: seq<byte>)
    requires |text| == 2 == |raw|
    ensures PutItems([Texts(3, [text]), Shorts(9, raw), Flag(19)]) == [3] + ([1, 2] + text) + ([9] + ([1] + raw) + [19])
  {
    var a, b, c := Texts(3, [text]), Shorts(9, raw), Flag(19);
    KeywordAsWritten(text);
    PortAsWritten(raw);
    assert [a, b, c][1..] == [b, c] && [b, c][1..] == [c] && [c][1..] == [];
    assert PutItems([c]) == [19];
  }

  /** A whole body: type 1, mode 1 and a count for an `or` of one rule; type 0, the items, 0xFF and the flag of that
      rule, here inverted; the flag of the whole. */
  lemma {:induction false} BodyAsWritten(text: seq<byte>, raw: seq<byte>)
    requires |text| == 2 == |raw|
    ensures var items := [3] + ([1, 2] + text) + ([9] + ([1] + raw) + [19]);
            ReadRule([1] + [1] + ([1] + ([0] + (items + ([0xFF] + [1])) + [0])))
            == Ok((Logical(false, [Default([Texts(3, [text]), Shorts(9, raw), Flag(19)], true)], false), []))
  {
    var inner := Default([Texts(3, [text]), Shorts(9, raw), Flag(19)], true);
    var outer := Logical(false, [inner], false);
    NumbersAsWritten();
    ItemsAsWritten(text, raw);
    assert PutRulesFrom(outer, 0) == PutRule(inner);
    RuleRoundTrip(outer, []);
    assert PutRule(outer) + [] == PutRule(outer);
  }

  // ---- the reader as it moves ----

  class Stream {
    const data: seq<byte>
    var pos: nat

    ghost predicate Valid()
      reads this
    {
      pos <= |data|
    }

    ghost function Rest(): seq<byte>
      requires Valid()
      reads this
    {
      data[pos..]
    }

    constructor (body: seq<byte>)
      ensures Valid() && data == body && pos == 0
    {
      data, pos := body, 0;
    }

    /** `_read_exact` */
    method ReadExact(n: nat) returns (r: Result<seq<byte>, string>)
      requires Valid()
      modifies this
      ensures Valid() && r.Ok? == Take(old(Rest()), n).Ok?
      ensures r.Ok? ==> Take(old(Rest()), n) == Ok((r.value, Rest()))
    {
      if n > |data| - pos {
        return Err("truncated rule-set file");
      }
      assert data[pos..][n..] == data[pos + n..] && data[pos..][..n] == data[pos..pos + n];
      pos := pos + n;
      r := Ok(data[pos - n..pos]);
    }

    /** `_read_uvarint`: seven more bits per byte, at most ten bytes. */
    method ReadUvarint() returns (r: Result<nat, string>)
      requires Valid()
      modifies this
      ensures Valid() && r.Ok? == Uvarint(old(Rest()), 0).Ok?
      ensures r.Ok? ==> Uvarint(old(Rest()), 0) == Ok((r.value, Rest()))
    {
      var result: nat, weight: nat, place: nat := 0, 1, 0;
      ghost var goal := Uvarint(Rest(), 0);
      while true
        invariant Valid() && place < MAX_PLACES
        invariant Resumes(goal, result, weight, Rest(), place)
        decreases MAX_PLACES - place
      {
        NextByte(goal, result, weight, Rest(), place);
        if pos == |data| {
          return Err("truncated rule-set file");
        }
        var b := data[pos];
        assert Rest()[0] == b && Rest()[1..] == data[pos + 1..];
        pos := pos + 1;
        result := result + Times((b % 128) as nat, weight);
        if b < 128 {
          return Ok(result);
        }
        weight := weight * 128;
        place := place + 1;
        if place >= MAX_PLACES {
          return Err("uvarint overflow");
        }
      }
    }

    method ReadBlock() returns (r: Result<seq<byte>, string>)
      requires Valid()
      modifies this
      ensures Valid() && r.Ok? == Block(old(Rest())).Ok?
      ensures r.Ok? ==> Block(old(Rest())) == Ok((r.value, Rest()))
    {
      var length := ReadUvarint();
      if length.Err? {
        return Err(length.error);
      }
      r := ReadExact(length.value);
    }

    /** `_read_string_list`, before decoding. */
    method ReadStringList() returns (r: Result<seq<seq<byte>>, string>)
      requires Valid()
      modifies this
      ensures Valid() && r.Ok? == StringList(old(Rest())).Ok?
      ensures r.Ok? ==> StringList(old(Rest())) == Ok((r.value, Rest()))
    {
      var n := ReadUvarint();
      if n.Err? {
        return Err(n.error);
      }
      r := ReadTexts(n.value);
    }

    method ReadTexts(n: nat) returns (r: Result<seq<seq<byte>>, string>)
      requires Valid()
      modifies this
      ensures Valid() && r.Ok? == Blocks(old(Rest()), n).Ok?
      ensures r.Ok? ==> Blocks(old(Rest()), n) == Ok((r.value, Rest()))
    {
      ghost var start := Rest();
      var texts: seq<seq<byte>> := [];
      ContinuedNone(Blocks(start, n));
      for i := 0 to n
        invariant Valid() && SameReads(Blocks(start, n), Continued(texts, Blocks(Rest(), n - i)))
      {
        OneMoreBlock(texts, Rest(), n - i);
        var text := ReadBlock();
        if text.Err? {
          return Err(text.error);
        }
        texts := texts + [text.value];
      }
      ContinuedDone(texts, Rest());
      r := Ok(texts);
    }
  }

  /** Reading on with `result` already accumulated and the next byte weighing `weight`. */
  function Resumed(result: nat, weight: nat, r: Reads<nat>): Reads<nat> {
    match r
    case Err(e) => Err(e)
    case Ok((v, rest)) => Ok((result + Times(v, weight), rest))
  }

  /** Reading on from `rest` comes to `goal`. */
  predicate Resumes(goal: Reads<nat>, result: nat, weight: nat, rest: seq<byte>, place: nat) {
    place < MAX_PLACES && goal == Resumed(result, weight, Uvarint(rest, place))
  }

  lemma {:induction false} NextByte(goal: Reads<nat>, result: nat, weight: nat, s: seq<byte>, place: nat)
    requires Resumes(goal, result, weight, s, place)
    ensures s == [] ==> goal.Err?
    ensures s != [] && s[0] < 128 ==> goal == Ok((result + Times((s[0] % 128) as nat, weight), s[1..]))
    ensures s != [] && s[0] >= 128 && place == MAX_PLACES - 1 ==> goal.Err?
    ensures s != [] && s[0] >= 128 && place < MAX_PLACES - 1 ==>
              Resumes(goal, result + Times((s[0] % 128) as nat, weight), weight * 128, s[1..], place + 1)
  {
    if s != [] {
      OneMoreByte(result, weight, s, place);
    }
  }

  lemma {:induction false} OneMoreByte(result: nat, weight: nat, s: seq<byte>, place: nat)
    requires s != [] && place < MAX_PLACES
    ensures var low := (s[0] % 128) as nat;
            Resumed(result, weight, Uvarint(s, place))
            == if s[0] < 128 then Ok((result + Times(low, weight), s[1..]))
               else if place == MAX_PLACES - 1 then Err("uvarint overflow")
               else Resumed(result + Times(low, weight), weight * 128, Uvarint(s[1..], place + 1))
  {
    if s[0] >= 128 && place < MAX_PLACES - 1 && Uvarint(s[1..], place + 1).Ok? {
      Weigh(result, weight, (s[0] % 128) as nat, Uvarint(s[1..], place + 1).value.0);
    }
  }

  lemma {:induction false} Weigh(result: nat, weight: nat, low: nat, high: nat)
    ensures result + Times(low + 128 * high, weight) == (result + Times(low, weight)) + Times(high, weight * 128)
  {
  }

  /** Reading on with `texts` already read. */
  function Continued(texts: seq<seq<byte>>, r: Reads<seq<seq<byte>>>): Reads<seq<seq<byte>>> {
    match r
    case Err(e) => Err(e)
    case Ok((more, rest)) => Ok((texts + more, rest))
  }

  predicate SameReads<T(==)>(a: Reads<T>, b: Reads<T>) {
    if a.Ok? then a == b else b.Err?
  }

  lemma {:induction false} ContinuedNone(r: Reads<seq<seq<byte>>>)
    ensures SameReads(r, Continued([], r))
  {
    if r.Ok? {
      assert [] + r.value.0 == r.value.0;
    }
  }

  lemma {:induction false} ContinuedDone(texts: seq<seq<byte>>, s: seq<byte>)
    ensures Continued(texts, Blocks(s, 0)) == Ok((texts, s))
  {
    var none: seq<seq<byte>> := [];
    assert texts + none == texts;
  }

  lemma {:induction false} OneMoreBlock(texts: seq<seq<byte>>, s: seq<byte>, n: nat)
    requires n > 0
    ensures Block(s).Err? ==> Blocks(s, n).Err?
    ensures Block(s).Ok? ==> SameReads(Continued(texts, Blocks(s, n)),
                                       Continued(texts + [Block(s).value.0], Blocks(Block(s).value.1, n - 1)))
  {
    if Block(s).Ok? && Blocks(Block(s).value.1, n - 1).Ok? {
      var b, more := Block(s).value.0, Blocks(Block(s).value.1, n - 1).value.0;
      assert texts + ([b] + more) == (texts + [b]) + more;
    }
  }
}
