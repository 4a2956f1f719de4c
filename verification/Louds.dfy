/** Level-order numbering of a label tree, independent of how the bits are packed into words. */
module Louds {
  import opened Common
  import opened LabelTree

  /** `nodes` in breadth-first order; per node one 0 bit per edge then a 1 bit; one label per edge. */
  datatype Layout = Layout(nodes: seq<Tree>, bits: seq<bool>, labels: seq<byte>)
  {
    /** Edges leaving the first `i` nodes. */
    ghost function Edges(i: nat): nat
      requires i <= |nodes|
    {
      if i == 0 then 0 else Edges(i - 1) + |nodes[i - 1].edges|
    }

    /** Where node `i`'s edge list begins in the bitmap. */
    ghost function Start(i: nat): nat
      requires i <= |nodes|
    {
      Edges(i) + i
    }

    /** Edge `k` of node `i`: its bit, its label and the number of the node it leads to. */
    ghost predicate EdgeCoded(i: nat, k: nat)
      requires i < |nodes| && k < |nodes[i].edges|
    {
      && Start(i) + k < |bits| && !bits[Start(i) + k]
      && Edges(i) + k < |labels| && labels[Edges(i) + k] == nodes[i].edges[k].sym
      && Edges(i) + k + 1 < |nodes| && nodes[Edges(i) + k + 1] == nodes[i].edges[k].child
    }

    ghost predicate EndCoded(i: nat)
      requires i < |nodes|
    {
      Start(i) + |nodes[i].edges| < |bits| && bits[Start(i) + |nodes[i].edges|]
    }

    ghost predicate Valid() {
      && nodes != []
      && (forall i :: 0 <= i < |nodes| ==> EndCoded(i))
      && (forall i, k :: 0 <= i < |nodes| && 0 <= k < |nodes[i].edges| ==> EdgeCoded(i, k))
    }

    /** Ones among the first `i` bits. */
    ghost function Ones(i: nat): nat
      requires i <= |bits|
    {
      if i == 0 then 0 else Ones(i - 1) + (if bits[i - 1] then 1 else 0)
    }

    lemma {:induction false} OnesGrow(i: nat, j: nat)
      requires i <= j <= |bits|
      ensures Ones(i) <= Ones(j)
    {
      if i < j {
        OnesGrow(i, j - 1);
      }
    }

    /** Inside node `i`'s edge list, and on its terminator, the rank is `i`. */
    lemma {:induction false} RankInsideNode(i: nat, k: nat)
      requires Valid() && i < |nodes| && k <= |nodes[i].edges|
      ensures Start(i) + k < |bits| && Ones(Start(i) + k) == i
      decreases i, k
    {
      assert EndCoded(i);
      if k > 0 {
        RankInsideNode(i, k - 1);
        assert EdgeCoded(i, k - 1);
      } else if i > 0 {
        RankInsideNode(i - 1, |nodes[i - 1].edges|);
        assert EndCoded(i - 1);
      }
    }

    /** Select inverts rank: the terminator of node `i` is the `i`-th set bit. */
    lemma {:induction false} SelectIsTerminator(i: nat, pos: nat)
      requires Valid() && i < |nodes|
      requires pos < |bits| && bits[pos] && Ones(pos) == i
      ensures pos == Start(i) + |nodes[i].edges|
    {
      var end := Start(i) + |nodes[i].edges|;
      assert EndCoded(i);
      RankInsideNode(i, |nodes[i].edges|);
      if pos < end {
        OnesGrow(pos + 1, end);
      } else if end < pos {
        OnesGrow(end + 1, pos);
      }
    }

    /** Following edge `k` of node `i` leads to the node the rank formula numbers. */
    lemma {:induction false} ChildNumber(i: nat, k: nat)
      requires Valid() && i < |nodes| && k < |nodes[i].edges|
      ensures EdgeCoded(i, k)
      ensures Start(i) + k + 1 < |bits|
      ensures Start(i) + k + 1 - Ones(Start(i) + k + 1) == Edges(i) + k + 1
    {
      assert EdgeCoded(i, k);
      RankInsideNode(i, k + 1);
    }
  }
}
