/** The LOUDS-coded domain set: rank, select and the membership walk over 64-bit words. */
module SuccinctTrie {
  import opened Common
  import opened Bits
  import opened LabelTree
  import opened Louds

  type Word = w: nat | w < 0x1_0000_0000_0000_0000

  // ---- the word array as a string of bits ----

  predicate BitOf(words: seq<Word>, i: nat) {
    i / 64 < |words| && BitAt(words[i / 64], i % 64)
  }

  function Get(words: seq<Word>, i: nat): (b: nat)
    ensures b == if BitOf(words, i) then 1 else 0
  {
    if i / 64 >= |words| then 0
    else
      ShrExposesBit(words[i / 64], i % 64);
      Shr(words[i / 64], i % 64) % 2
  }

  /** Set bits among the first `i` positions, counted one by one. */
  function Ones(words: seq<Word>, i: nat): nat {
    if i == 0 then 0 else Ones(words, i - 1) + (if BitOf(words, i - 1) then 1 else 0)
  }

  lemma {:induction false} OnesMonotone(words: seq<Word>, i: nat, j: nat)
    requires i <= j
    ensures Ones(words, i) <= Ones(words, j) <= Ones(words, i) + (j - i)
  {
    if i < j {
      OnesMonotone(words, i, j - 1);
    }
  }

  lemma {:induction false} OnesJump(words: seq<Word>, p: nat, q: nat)
    requires BitOf(words, p) && p < q
    ensures Ones(words, p) < Ones(words, q)
  {
    OnesMonotone(words, p + 1, q);
  }

  lemma {:induction false} OneBitPerRank(words: seq<Word>, p: nat, q: nat)
    requires BitOf(words, p) && BitOf(words, q) && Ones(words, p) == Ones(words, q)
    ensures p == q
  {
    if p != q {
      OnesJump(words, if p < q then p else q, if p < q then q else p);
    }
  }

  lemma {:induction false} PlaceInWord(w: nat, b: nat)
    requires b < 64
    ensures (64 * w + b) / 64 == w && (64 * w + b) % 64 == b
  {
  }

  lemma {:induction false} OnesWithinWord(words: seq<Word>, w: nat, b: nat)
    requires w < |words| && b <= 64
    ensures Ones(words, 64 * w + b) == Ones(words, 64 * w) + OnesBelow(words[w], b)
  {
    if b != 0 {
      OnesWithinWord(words, w, b - 1);
      OnesBelowNext(words[w], b - 1);
      PlaceInWord(w, b - 1);
    }
  }

  lemma {:induction false} WordCount(words: seq<Word>, w: nat)
    requires w < |words|
    ensures Ones(words, 64 * (w + 1)) == Ones(words, 64 * w) + BitCount(words[w])
  {
    OnesWithinWord(words, w, 64);
    assert 64 * (w + 1) == 64 * w + 64;
    FullWord(words[w]);
  }

  lemma {:induction false} FullWord(w: Word)
    ensures OnesBelow(w, 64) == BitCount(w)
  {
    Pow2Of64();
    CountOfLowBits(w, 64);
    LowBitsOfSmall(w, 64);
  }

  lemma {:induction false} OnesBeyond(words: seq<Word>, i: nat)
    requires i >= 64 * |words|
    ensures Ones(words, i) == Ones(words, 64 * |words|)
    decreases i
  {
    if i > 64 * |words| {
      OnesBeyond(words, i - 1);
    }
  }

  /** `bisect.bisect_right` on a non-decreasing list. */
  method BisectRight(xs: seq<nat>, x: nat) returns (p: nat)
    requires forall i, j :: 0 <= i < j < |xs| ==> xs[i] <= xs[j]
    ensures p <= |xs|
    ensures forall i :: 0 <= i < p ==> xs[i] <= x
    ensures forall i :: p <= i < |xs| ==> x < xs[i]
  {
    var lo, hi := 0, |xs|;
    while lo < hi
      invariant 0 <= lo <= hi <= |xs|
      invariant forall i :: 0 <= i < lo ==> xs[i] <= x
      invariant forall i :: hi <= i < |xs| ==> x < xs[i]
    {
      var mid := (lo + hi) / 2;
      if x < xs[mid] {
        hi := mid;
      } else {
        lo := mid + 1;
      }
    }
    p := lo;
  }

  datatype SuccinctTrie = SuccinctTrie(leaves: seq<Word>, labelBitmap: seq<Word>, labels: seq<byte>, ranks: seq<nat>)
  {
    /** The rank index holds the number of set bits before each word. */
    ghost predicate Indexed() {
      && |ranks| == |labelBitmap| + 1
      && forall w :: 0 <= w < |ranks| ==> ranks[w] == Ones(labelBitmap, 64 * w)
    }

    /** The three arrays code the layout; padding bits and trimmed leaf words are unconstrained. */
    ghost predicate Codes(l: Layout) {
      && Indexed()
      && l.Valid()
      && labels == l.labels
      && (forall i :: 0 <= i < |l.bits| ==> BitOf(labelBitmap, i) == l.bits[i])
      && (forall i :: 0 <= i < |l.nodes| ==> BitOf(leaves, i) == l.nodes[i].leaf)
    }

    /** Ones in `label_bitmap[:i]`, from the rank index and one popcount. */
    function Rank1(i: nat): (r: nat)
      requires Indexed()
      ensures r == Ones(labelBitmap, i)
    {
      var word, bit := i / 64, i % 64;
      if word >= |labelBitmap| then
        OnesBeyond(labelBitmap, i);
        ranks[|ranks| - 1]
      else
        OnesWithinWord(labelBitmap, word, bit);
        CountOfMasked(labelBitmap[word], bit);
        assert i == 64 * word + bit;
        ranks[word] + BitCount(And(labelBitmap[word], Shl(1, bit) - 1))
    }

    /** Position of the `i`-th (0-based) set bit; an index failure when there are no more than `i`. */
    method Select1(i: nat) returns (r: Option<nat>)
      requires Indexed()
      ensures r.Some? <==> i < Ones(labelBitmap, 64 * |labelBitmap|)
      ensures r.Some? ==> BitOf(labelBitmap, r.value) && Ones(labelBitmap, r.value) == i
    {
      RanksSorted();
      var p := BisectRight(ranks, i);
      assert ranks[0] == 0;
      assert ranks[|labelBitmap|] == Ones(labelBitmap, 64 * |labelBitmap|);
      var word := p - 1;
      if word >= |labelBitmap| {
        return None;
      }
      var remaining := i - ranks[word];
      var bits: nat := labelBitmap[word];
      var pos := 64 * word;
      ghost var b := 0;
      WordCount(labelBitmap, word);
      assert i < ranks[word + 1] <= ranks[|labelBitmap|];
      while true
        invariant b <= 64 && pos == 64 * word + b
        invariant bits == Shr(labelBitmap[word], b)
        invariant remaining == i - Ones(labelBitmap, pos) && remaining >= 0
        invariant i < Ones(labelBitmap, 64 * (word + 1))
        decreases 64 - b
      {
        assert b < 64;
        PlaceInWord(word, b);
        ShrExposesBit(labelBitmap[word], b);
        assert (bits % 2 == 1) == BitOf(labelBitmap, pos);
        if bits % 2 == 1 && remaining == 0 {
          return Some(pos);
        }
        if bits % 2 == 1 {
          remaining := remaining - 1;
        }
        ShrTwice(labelBitmap[word], b);
        bits := bits / 2;
        pos := pos + 1;
        b := b + 1;
      }
    }

    lemma {:induction false} RanksSorted()
      requires Indexed()
      ensures forall i, j :: 0 <= i < j < |ranks| ==> ranks[i] <= ranks[j]
    {
      forall i, j | 0 <= i < j < |ranks| ensures ranks[i] <= ranks[j] {
        OnesMonotone(labelBitmap, 64 * i, 64 * j);
      }
    }

    lemma {:induction false} RankAgrees(l: Layout, i: nat)
      requires Codes(l) && i <= |l.bits|
      ensures Ones(labelBitmap, i) == l.Ones(i)
    {
      if i != 0 {
        RankAgrees(l, i - 1);
      }
    }

    lemma {:induction false} TerminatorRank(l: Layout, i: nat)
      requires Codes(l) && i < |l.nodes|
      ensures var end := l.Start(i) + |l.nodes[i].edges|;
              BitOf(labelBitmap, end) && Ones(labelBitmap, end) == i && Ones(labelBitmap, end + 1) == i + 1
    {
      l.RankInsideNode(i, |l.nodes[i].edges|);
      assert l.EndCoded(i);
      RankAgrees(l, l.Start(i) + |l.nodes[i].edges|);
    }

    lemma {:induction false} NodeCountBounded(l: Layout, i: nat)
      requires Codes(l) && i < |l.nodes|
      ensures i < Ones(labelBitmap, 64 * |labelBitmap|)
    {
      TerminatorRank(l, i);
      OnesMonotone(labelBitmap, l.Start(i) + |l.nodes[i].edges| + 1, 64 * |labelBitmap|);
    }

    /** The `i`-th set bit of the words ends node `i`, so the next position starts node `i + 1`. */
    lemma {:induction false} SelectLands(l: Layout, i: nat, pos: nat)
      requires Codes(l) && i < |l.nodes|
      requires BitOf(labelBitmap, pos) && Ones(labelBitmap, pos) == i
      ensures pos == l.Start(i) + |l.nodes[i].edges|
    {
      var end := l.Start(i) + |l.nodes[i].edges|;
      TerminatorRank(l, i);
      OneBitPerRank(labelBitmap, pos, end);
    }

    /** What one probe of the arrays sees at position `k` of node `i`'s edge list. */
    lemma {:induction false} ProbeEdge(l: Layout, i: nat, k: nat)
      requires Codes(l) && i < |l.nodes| && k <= |l.nodes[i].edges|
      ensures BitOf(labelBitmap, l.Start(i) + k) <==> k == |l.nodes[i].edges|
      ensures k < |l.nodes[i].edges| ==>
                && l.Edges(i) + k < |labels| && labels[l.Edges(i) + k] == l.nodes[i].edges[k].sym
                && l.Start(i) + k + 1 - Ones(labelBitmap, l.Start(i) + k + 1) == l.Edges(i) + k + 1 < |l.nodes|
                && l.nodes[l.Edges(i) + k + 1] == l.nodes[i].edges[k].child
    {
      l.RankInsideNode(i, k);
      if k < |l.nodes[i].edges| {
        l.ChildNumber(i, k);
        RankAgrees(l, l.Start(i) + k + 1);
      } else {
        assert l.EndCoded(i);
      }
    }

    /** Scanning on from position `k` comes to `goal`. */
    ghost predicate ScansFrom(l: Layout, i: nat, current: byte, k: nat, goal: Step) {
      i < |l.nodes| && k <= |l.nodes[i].edges| && Scan(l.nodes[i], current, k) == goal
    }

    /** What the scan makes of the edge at position `k`, told by what the arrays show there. */
    lemma {:induction false} ProbeScan(l: Layout, i: nat, k: nat, at: nat, current: byte, goal: Step)
      requires Codes(l) && ScansFrom(l, i, current, k, goal) && at == l.Start(i) + k
      ensures if BitOf(labelBitmap, at) then goal == Miss
              else
                && at >= i && at - i < |labels| && at + 1 >= Ones(labelBitmap, at + 1)
                && var sym := labels[at - i];
                   if sym == PREFIX_LABEL then goal == Hit
                   else if sym == ROOT_LABEL && current == DOT && BitOf(leaves, at + 1 - Ones(labelBitmap, at + 1))
                       then goal == Hit
                   else if sym == current then goal == Down(k)
                   else ScansFrom(l, i, current, k + 1, goal)
    {
      ProbeEdge(l, i, k);
    }

    /** The arrays code the layout, and the walk stands at the start of node `i`. */
    ghost predicate At(l: Layout, i: nat, bmIdx: nat) {
      Codes(l) && i < |l.nodes| && bmIdx == l.Start(i)
    }

    /** The inner loop of the walk: scan one node's edge list for a key byte. `None` is an index failure, which no coded
        tree meets; the label index is never negative and grows, so the scan ends for any arrays. */
    method FindEdge(current: byte, nodeId: nat, bmStart: nat, ghost l: Layout) returns (r: Option<(Step, nat)>)
      requires Indexed() && Ones(labelBitmap, bmStart) == nodeId
      ensures At(l, nodeId, bmStart) ==> r.Some? && r.value.0 == Scan(l.nodes[nodeId], current, 0)
      ensures r.Some? && r.value.0.Down? ==>
                r.value.1 == bmStart + r.value.0.k && !BitOf(labelBitmap, r.value.1)
                    && Ones(labelBitmap, r.value.1) == nodeId
    {
      ghost var coded := At(l, nodeId, bmStart);
      ghost var goal := if coded then Scan(l.nodes[nodeId], current, 0) else Miss;
      var bmIdx := bmStart;
      ghost var k := 0;
      OnesAtMost(bmIdx);
      while true
        invariant bmIdx == bmStart + k && nodeId <= bmIdx && Ones(labelBitmap, bmIdx) == nodeId
        invariant coded ==> ScansFrom(l, nodeId, current, k, goal)
        decreases |labels| - (bmIdx - nodeId)
      {
        if coded {
          ProbeScan(l, nodeId, k, bmIdx, current, goal);
        }
        if Get(labelBitmap, bmIdx) == 1 {
          return Some((Miss, bmIdx));
        }
        if bmIdx - nodeId >= |labels| {
          return None;
        }
        var nextLabel := labels[bmIdx - nodeId];
        if nextLabel == PREFIX_LABEL {
          return Some((Hit, bmIdx));
        }
        if nextLabel == ROOT_LABEL {
          OnesAtMost(bmIdx + 1);
          var nextNode := bmIdx + 1 - Rank1(bmIdx + 1);
          if current == DOT && Get(leaves, nextNode) == 1 {
            return Some((Hit, bmIdx));
          }
        }
        if nextLabel == current {
          return Some((Down(bmIdx - bmStart), bmIdx));
        }
        bmIdx := bmIdx + 1;
        k := k + 1;
      }
    }

    lemma {:induction false} OnesAtMost(i: nat)
      ensures Ones(labelBitmap, i) <= i
    {
      OnesMonotone(labelBitmap, 0, i);
    }

    /** The last loop of the walk: after the key, any marker edge still accepts. */
    method FindMarker(nodeId: nat, bmStart: nat, ghost l: Layout) returns (found: Option<bool>)
      requires Indexed() && Ones(labelBitmap, bmStart) == nodeId
      ensures At(l, nodeId, bmStart) ==>
                found == Some(exists k :: 0 <= k < |l.nodes[nodeId].edges| && IsMarker(l.nodes[nodeId].edges[k].sym))
    {
      ghost var coded := At(l, nodeId, bmStart);
      ghost var node := if coded then l.nodes[nodeId] else Node(false, []);
      var bmIdx := bmStart;
      ghost var k := 0;
      OnesAtMost(bmIdx);
      while true
        invariant bmIdx == bmStart + k && nodeId <= bmIdx
        invariant coded ==> k <= |node.edges| && forall m :: 0 <= m < k ==> !IsMarker(node.edges[m].sym)
        decreases |labels| - (bmIdx - nodeId)
      {
        if coded {
          ProbeEdge(l, nodeId, k);
        }
        if Get(labelBitmap, bmIdx) == 1 {
          return Some(false);
        }
        if bmIdx - nodeId >= |labels| {
          return None;
        }
        var nextLabel := labels[bmIdx - nodeId];
        if nextLabel == PREFIX_LABEL || nextLabel == ROOT_LABEL {
          assert coded ==> IsMarker(node.edges[k].sym);
          return Some(true);
        }
        bmIdx := bmIdx + 1;
        k := k + 1;
      }
    }

    /** The rank formula names the child, and its terminator's predecessor is among the set bits. */
    lemma {:induction false} ChildIsThere(l: Layout, i: nat, k: nat, bmIdx: nat)
      requires Codes(l) && i < |l.nodes| && k < |l.nodes[i].edges| && bmIdx == l.Start(i) + k
      requires Ones(labelBitmap, bmIdx + 1) == i
      ensures 1 <= bmIdx + 1 - i < |l.nodes| && l.nodes[bmIdx + 1 - i] == l.nodes[i].edges[k].child
      ensures bmIdx - i < Ones(labelBitmap, 64 * |labelBitmap|)
    {
      ProbeEdge(l, i, k);
      NodeCountBounded(l, bmIdx - i);
    }

    /** Right behind the terminator of the node before it, a node's edge list starts. */
    lemma {:induction false} NextStart(l: Layout, child: nat, end: nat)
      requires Codes(l) && 1 <= child < |l.nodes| && BitOf(labelBitmap, end) && Ones(labelBitmap, end) == child - 1
      ensures At(l, child, end + 1)
    {
      SelectLands(l, child - 1, end);
    }

    /** Following the edge found at `bmIdx`: rank numbers the child, select finds its edge list. */
    method Descend(bmIdx: nat, ghost i: nat, ghost k: nat, ghost l: Layout) returns (r: Option<(nat, nat)>)
      requires Indexed() && !BitOf(labelBitmap, bmIdx) && Ones(labelBitmap, bmIdx) == i <= bmIdx
      ensures r.Some? ==> Ones(labelBitmap, r.value.1) == r.value.0
      ensures Codes(l) && i < |l.nodes| && k < |l.nodes[i].edges| && bmIdx == l.Start(i) + k ==>
                r.Some? && At(l, r.value.0, r.value.1) && l.nodes[r.value.0] == l.nodes[i].edges[k].child
    {
      ghost var coded := Codes(l) && i < |l.nodes| && k < |l.nodes[i].edges| && bmIdx == l.Start(i) + k;
      assert Ones(labelBitmap, bmIdx + 1) == i;
      var nodeId: nat := bmIdx + 1 - Rank1(bmIdx + 1);
      if coded {
        ChildIsThere(l, i, k, bmIdx);
      }
      var end := Select1(nodeId - 1);
      if end.None? {
        return None;
      }
      if coded {
        NextStart(l, nodeId, end.value);
      }
      var start: nat := end.value + 1;
      r := Some((nodeId, start));
    }

    /** The membership walk. For any arrays it ends, with an answer or with an index failure; for arrays that code a
        tree it never fails, and answers as the plain walk does. */
    method Has(key: seq<byte>, ghost l: Layout) returns (r: Option<bool>)
      requires Indexed()
      ensures Codes(l) ==> r == Some(Walk(l.nodes[0], key))
    {
      var nodeId: nat, bmIdx: nat := 0, 0;
      for j := 0 to |key|
        invariant Ones(labelBitmap, bmIdx) == nodeId
        invariant Codes(l) ==> At(l, nodeId, bmIdx) && Walk(l.nodes[0], key) == Walk(l.nodes[nodeId], key[j..])
      {
        assert key[j..][0] == key[j] && key[j..][1..] == key[j + 1..];
        var step := FindEdge(key[j], nodeId, bmIdx, l);
        match step {
          case None => return None;
          case Some((Hit, _)) => return Some(true);
          case Some((Miss, _)) => return Some(false);
          case Some((Down(k), edge)) =>
            OnesAtMost(edge);
            var next := Descend(edge, nodeId, k, l);
            if next.None? {
              return None;
            }
            nodeId, bmIdx := next.value.0, next.value.1;
        }
      }
      if Get(leaves, nodeId) == 1 {
        return Some(true);
      }
      r := FindMarker(nodeId, bmIdx, l);
    }

    /** `match_domain`: the walk over the reversed bytes of the domain. */
    method MatchDomain(domain: seq<byte>, ghost l: Layout) returns (r: Option<bool>)
      requires Indexed()
      ensures Codes(l) ==> r == Some(Walk(l.nodes[0], Reverse(domain)))
    {
      r := Has(Reverse(domain), l);
    }
  }

  lemma {:induction false} ShrTwice(w: nat, b: nat)
    ensures Shr(w, b) / 2 == Shr(w, b + 1)
  {
    if b != 0 {
      ShrTwice(w / 2, b - 1);
    }
  }

  /** Decoding builds the rank index word by word. */
  method Decode(leaves: seq<Word>, labelBitmap: seq<Word>, labels: seq<byte>) returns (t: SuccinctTrie)
    ensures t.leaves == leaves && t.labelBitmap == labelBitmap && t.labels == labels
    ensures t.Indexed()
  {
    var ranks: seq<nat> := [0];
    for w := 0 to |labelBitmap|
      invariant |ranks| == w + 1
      invariant forall v :: 0 <= v <= w ==> ranks[v] == Ones(labelBitmap, 64 * v)
    {
      WordCount(labelBitmap, w);
      ranks := ranks + [ranks[|ranks| - 1] + BitCount(labelBitmap[w])];
    }
    t := SuccinctTrie(leaves, labelBitmap, labels, ranks);
  }
}
