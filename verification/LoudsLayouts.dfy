/** Every label tree has a LOUDS coding in 64-bit words, built node by node in level order, so the agreement theorem of
    the walk speaks about every tree. */
module LoudsLayouts {
  import opened Common
  import opened Bits
  import opened LabelTree
  import opened Louds
  import opened SuccinctTrie

  ghost function Size(t: Tree): nat
    decreases t, 0
  {
    1 + EdgesSize(t.edges)
  }

  ghost function EdgesSize(es: seq<Edge>): nat
    decreases es
  {
    if es == [] then 0 else EdgeSize(es[0]) + EdgesSize(es[1..])
  }

  ghost function EdgeSize(e: Edge): nat
    decreases e, 1
  {
    Size(e.child)
  }

  ghost function TreesSize(ts: seq<Tree>): nat {
    if ts == [] then 0 else Size(ts[0]) + TreesSize(ts[1..])
  }

  function Children(es: seq<Edge>): (ts: seq<Tree>)
    ensures |ts| == |es|
    ensures forall k :: 0 <= k < |es| ==> ts[k] == es[k].child
  {
    if es == [] then [] else [es[0].child] + Children(es[1..])
  }

  function Symbols(es: seq<Edge>): (bs: seq<byte>)
    ensures |bs| == |es|
    ensures forall k :: 0 <= k < |es| ==> bs[k] == es[k].sym
  {
    if es == [] then [] else [es[0].sym] + Symbols(es[1..])
  }

  lemma {:induction false} ChildrenSize(es: seq<Edge>)
    ensures TreesSize(Children(es)) == EdgesSize(es)
  {
    if es != [] {
      ChildrenSize(es[1..]);
      assert Children(es)[1..] == Children(es[1..]);
    }
  }

  lemma {:induction false} TreesSizeAppend(a: seq<Tree>, b: seq<Tree>)
    ensures TreesSize(a + b) == TreesSize(a) + TreesSize(b)
  {
    if a == [] {
      assert a + b == b;
    } else {
      TreesSizeAppend(a[1..], b);
      assert (a + b)[1..] == a[1..] + b;
    }
  }

  function Zeros(n: nat): (z: seq<bool>)
    ensures |z| == n && forall k :: 0 <= k < n ==> !z[k]
  {
    if n == 0 then [] else [false] + Zeros(n - 1)
  }

  /** The first `i` nodes are coded and every child they have has been queued. */
  ghost predicate CodedUpTo(l: Layout, i: nat) {
    && i <= |l.nodes|
    && |l.bits| == l.Start(i) && |l.labels| == l.Edges(i) && |l.nodes| == l.Edges(i) + 1
    && (forall j :: 0 <= j < i ==> l.EndCoded(j))
    && (forall j, k :: 0 <= j < i && 0 <= k < |l.nodes[j].edges| ==> l.EdgeCoded(j, k))
  }

  lemma {:induction false} EdgesOfPrefix(l: Layout, m: Layout, i: nat)
    requires l.nodes <= m.nodes && i <= |l.nodes|
    ensures l.Edges(i) == m.Edges(i)
  {
    if i != 0 {
      EdgesOfPrefix(l, m, i - 1);
    }
  }

  ghost function CodeNode(l: Layout, i: nat): Layout
    requires i < |l.nodes|
  {
    var es := l.nodes[i].edges;
    Layout(l.nodes + Children(es), l.bits + Zeros(|es|) + [true], l.labels + Symbols(es))
  }

  lemma {:induction false} CodeNodeKeepsEdge(l: Layout, i: nat, j: nat, k: nat)
    requires CodedUpTo(l, i) && i < |l.nodes| && j <= i && k < |l.nodes[j].edges|
    ensures CodeNode(l, i).EdgeCoded(j, k)
  {
    var m := CodeNode(l, i);
    EdgesOfPrefix(l, m, j);
    if j < i {
      assert l.EdgeCoded(j, k);
    }
  }

  lemma {:induction false} CodeNodeStep(l: Layout, i: nat)
    requires CodedUpTo(l, i) && i < |l.nodes|
    ensures CodedUpTo(CodeNode(l, i), i + 1)
  {
    var m := CodeNode(l, i);
    EdgesOfPrefix(l, m, i);
    forall j | 0 <= j < i + 1 ensures m.EndCoded(j) {
      EdgesOfPrefix(l, m, j);
      if j < i {
        assert l.EndCoded(j);
      }
    }
    forall j, k | 0 <= j < i + 1 && 0 <= k < |m.nodes[j].edges| ensures m.EdgeCoded(j, k) {
      CodeNodeKeepsEdge(l, i, j, k);
    }
  }

  lemma {:induction false} TreeHasLayout(root: Tree) returns (l: Layout)
    ensures l.Valid() && l.nodes[0] == root
  {
    l := Layout([root], [], []);
    var i := 0;
    while i < |l.nodes|
      invariant CodedUpTo(l, i) && l.nodes[0] == root
      decreases TreesSize(l.nodes[i..])
    {
      var es := l.nodes[i].edges;
      var m := CodeNode(l, i);
      CodeNodeStep(l, i);
      assert l.nodes[i..][1..] == l.nodes[i + 1..];
      assert m.nodes[i + 1..] == l.nodes[i + 1..] + Children(es);
      TreesSizeAppend(l.nodes[i + 1..], Children(es));
      ChildrenSize(es);
      l := m;
      i := i + 1;
    }
  }

  // ---- packing bits into words ----

  function WordOf(bits: seq<bool>): nat {
    if bits == [] then 0 else (if bits[0] then 1 else 0) + 2 * WordOf(bits[1..])
  }

  lemma {:induction false} WordOfBits(bits: seq<bool>)
    ensures WordOf(bits) < Pow2(|bits|)
    ensures forall k :: 0 <= k < |bits| ==> BitAt(WordOf(bits), k) == bits[k]
  {
    if bits != [] {
      WordOfBits(bits[1..]);
      var w := WordOf(bits);
      assert w / 2 == WordOf(bits[1..]);
      forall k | 0 <= k < |bits| ensures BitAt(w, k) == bits[k] {
        if k > 0 {
          assert bits[k] == bits[1..][k - 1];
        }
      }
    }
  }

  lemma {:induction false} PackWord(bits: seq<bool>) returns (w: Word)
    requires |bits| <= 64
    ensures forall k :: 0 <= k < |bits| ==> BitAt(w, k) == bits[k]
  {
    WordOfBits(bits);
    Pow2Of64();
    Pow2Monotone(|bits|, 64);
    w := WordOf(bits);
  }

  lemma {:induction false} PackBits(bits: seq<bool>) returns (words: seq<Word>)
    ensures forall i :: 0 <= i < |bits| ==> BitOf(words, i) == bits[i]
    decreases |bits|
  {
    if bits == [] {
      words := [];
    } else {
      var n := if |bits| < 64 then |bits| else 64;
      var first := PackWord(bits[..n]);
      var rest := PackBits(bits[n..]);
      words := [first] + rest;
      forall i | 0 <= i < |bits| ensures BitOf(words, i) == bits[i] {
        if i < n {
          assert bits[..n][i] == bits[i];
        } else {
          assert n == 64 && bits[n..][i - 64] == bits[i];
          assert i / 64 == (i - 64) / 64 + 1 && i % 64 == (i - 64) % 64;
          assert BitOf(words, i) == BitOf(rest, i - 64);
        }
      }
    }
  }

  lemma {:induction false} IndexExists(words: seq<Word>) returns (ranks: seq<nat>)
    ensures |ranks| == |words| + 1
    ensures forall w :: 0 <= w < |ranks| ==> ranks[w] == Ones(words, 64 * w)
  {
    ranks := seq(|words| + 1, w requires 0 <= w => Ones(words, 64 * w));
  }

  /** For every tree there are word arrays that code it; on them the bit-level walk is the plain walk. */
  lemma {:induction false} EveryTreeIsCoded(root: Tree) returns (t: SuccinctTrie, l: Layout)
    ensures t.Codes(l) && l.nodes[0] == root
  {
    l := TreeHasLayout(root);
    var labelBitmap := PackBits(l.bits);
    var leafBits := seq(|l.nodes|, i requires 0 <= i < |l.nodes| => l.nodes[i].leaf);
    var leaves := PackBits(leafBits);
    var ranks := IndexExists(labelBitmap);
    t := SuccinctTrie(leaves, labelBitmap, l.labels, ranks);
    forall i | 0 <= i < |l.nodes| ensures BitOf(leaves, i) == l.nodes[i].leaf {
      assert leafBits[i] == l.nodes[i].leaf;
    }
  }
}
