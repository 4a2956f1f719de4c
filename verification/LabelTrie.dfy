/** The reverse-label domain trie: nodes linked on the heap, extended in place. */
module LabelTrie {
  import opened Common
  import opened Routes

  /** The labels from the root down to a node. */
  datatype LabelPath = Root | Under(parent: LabelPath, tag: string)

  function PathOf(labels: seq<string>): LabelPath {
    if labels == [] then Root else Under(PathOf(labels[..|labels| - 1]), labels[|labels| - 1])
  }

  function Depth(p: LabelPath): nat {
    match p
    case Root => 0
    case Under(parent, _) => 1 + Depth(parent)
  }

  lemma {:induction false} PathOfNext(labels: seq<string>, n: nat)
    requires n < |labels|
    ensures PathOf(labels[..n + 1]) == Under(PathOf(labels[..n]), labels[n])
  {
    assert labels[..n + 1][..n] == labels[..n];
  }

  lemma {:induction false} PathOfInjective(a: seq<string>, b: seq<string>)
    requires PathOf(a) == PathOf(b)
    ensures a == b
  {
    if a != [] {
      PathOfInjective(a[..|a| - 1], b[..|b| - 1]);
      assert a == a[..|a| - 1] + [a[|a| - 1]];
      assert b == b[..|b| - 1] + [b[|b| - 1]];
    }
  }

  /** One node of the trie; `index` is the position of the rule that ends here. */
  class Labels {
    ghost const path: LabelPath
    var children: map<string, Labels>
    var index: Option<nat>

    constructor (ghost path: LabelPath)
      ensures children == map[] && index == None && this.path == path
    {
      children := map[];
      index := None;
      this.path := path;
    }
  }

  class LabelTrie {
    const root: Labels
    ghost var nodes: set<Labels>
    ghost var at: map<LabelPath, Labels>

    ghost predicate Valid()
      reads this, nodes
    {
      && Root in at && at[Root] == root
      && (forall p <- at.Keys :: at[p] in nodes && at[p].path == p)
      && (forall p <- at.Keys :: p.Under? ==> p.parent in at && p.tag in at[p.parent].children)
      && (forall p <- at.Keys :: Linked(p))
    }

    /** The children of the node at `p` are the nodes one label further down. */
    ghost predicate Linked(p: LabelPath)
      requires p in at
      reads this, at[p]
    {
      forall l :: l in at[p].children ==> Under(p, l) in at && at[p].children[l] == at[Under(p, l)]
    }

    /** The rule position recorded at a path, if any. */
    ghost function Owner(p: LabelPath): Option<nat>
      requires p in at ==> at[p] in nodes
      reads this, nodes
    {
      if p in at then at[p].index else None
    }

    constructor ()
      ensures Valid() && forall p :: Owner(p) == None
      ensures fresh(this) && fresh(nodes)
    {
      var r := new Labels(Root);
      root := r;
      nodes := {r};
      at := map[Root := r];
    }

    method AddChild(node: Labels, tag: string, ghost path: LabelPath) returns (child: Labels)
      requires Valid() && path in at && at[path] == node && tag !in node.children
      modifies this, node
      ensures Valid()
      ensures at == old(at)[Under(path, tag) := child] && nodes == old(nodes) + {child} && fresh(child)
      ensures child.index == None && node.index == old(node.index)
    {
      assert Under(path, tag) !in at;
      child := new Labels(Under(path, tag));
      node.children := node.children[tag := child];
      at := at[Under(path, tag) := child];
      nodes := nodes + {child};
      forall p <- at.Keys ensures Linked(p) {
        if p in old(at) {
          assert old(Linked(p));
          assert at[p] == old(at[p]) && at[p].path == p;
        }
      }
      forall p <- at.Keys | p.Under? ensures p.parent in at && p.tag in at[p.parent].children {
        if p in old(at) {
          assert at[p.parent] == old(at[p.parent]);
        }
      }
    }

    /** `node.children.setdefault(label, _Labels())` */
    method ChildOrNew(node: Labels, tag: string, ghost path: LabelPath) returns (child: Labels)
      requires Valid() && path in at && at[path] == node
      modifies this, node
      ensures Valid()
      ensures at.Keys == old(at.Keys) + {Under(path, tag)} && at[Under(path, tag)] == child
      ensures forall p :: Owner(p) == old(Owner(p))
      ensures fresh(nodes - old(nodes))
    {
      if tag in node.children {
        child := node.children[tag];
      } else {
        assert Under(path, tag) !in at;
        child := AddChild(node, tag, path);
      }
    }

    /** Walk down from the root, creating what is missing, and record `position` unless the path is taken. */
    method Claim(labels: seq<string>, position: nat)
      requires Valid()
      modifies this, nodes
      ensures Valid()
      ensures forall p :: Owner(p) == if p == PathOf(labels) && old(Owner(p)) == None then Some(position)
                                        else old(Owner(p))
      ensures fresh(nodes - old(nodes))
    {
      var node := root;
      for i := 0 to |labels|
        invariant Valid() && PathOf(labels[..i]) in at && at[PathOf(labels[..i])] == node
        invariant forall p :: Owner(p) == old(Owner(p))
        invariant fresh(nodes - old(nodes))
      {
        PathOfNext(labels, i);
        node := ChildOrNew(node, labels[i], PathOf(labels[..i]));
      }
      assert labels[..|labels|] == labels;
      SetOwner(node, position);
    }

    /** `if node.index is None: node.index = position` */
    method SetOwner(node: Labels, position: nat)
      requires Valid() && node.path in at && at[node.path] == node
      modifies node
      ensures Valid()
      ensures forall p :: Owner(p) == if p == node.path && old(Owner(p)) == None then Some(position) else old(Owner(p))
    {
      if node.index == None {
        node.index := Some(position);
        forall p <- at.Keys ensures Linked(p) {
          assert old(Linked(p));
        }
      }
    }

    /** The earliest of `start` and the positions recorded on the first `n` labels of a path. */
    ghost function EarliestOwner(start: Option<nat>, labels: seq<string>, n: nat): Option<nat>
      requires Valid() && n <= |labels|
      reads this, nodes
    {
      if n == 0 then start
      else Earliest(EarliestOwner(start, labels, n - 1), Owner(PathOf(labels[..n])))
    }

    lemma {:induction false} AbsentBelow(labels: seq<string>, n: nat, k: nat)
      requires Valid() && k <= n <= |labels| && PathOf(labels[..k]) !in at
      ensures PathOf(labels[..n]) !in at
      decreases n - k
    {
      if k < n {
        AbsentBelow(labels, n - 1, k);
        PathOfNext(labels, n - 1);
      }
    }

    lemma {:induction false} NoOwnerBelow(start: Option<nat>, labels: seq<string>, n: nat, k: nat)
      requires Valid() && k < n <= |labels| && PathOf(labels[..k + 1]) !in at
      ensures EarliestOwner(start, labels, n) == EarliestOwner(start, labels, k)
      decreases n - k
    {
      AbsentBelow(labels, n, k + 1);
      if k + 1 < n {
        NoOwnerBelow(start, labels, n - 1, k);
      }
    }

    /** The lookup walk: stop at the first label that leads nowhere. */
    method FirstOnPath(labels: seq<string>, start: Option<nat>) returns (best: Option<nat>)
      requires Valid()
      ensures best == EarliestOwner(start, labels, |labels|)
    {
      best := start;
      var node := root;
      for i := 0 to |labels|
        invariant PathOf(labels[..i]) in at && at[PathOf(labels[..i])] == node
        invariant best == EarliestOwner(start, labels, i)
      {
        PathOfNext(labels, i);
        if labels[i] !in node.children {
          assert PathOf(labels[..i + 1]) !in at;
          NoOwnerBelow(start, labels, |labels|, i);
          return;
        }
        assert Linked(PathOf(labels[..i]));
        node := node.children[labels[i]];
        best := Earliest(best, node.index);
      }
    }
  }

  /** `_earliest` */
  function Earliest(current: Option<nat>, candidate: Option<nat>): Option<nat> {
    if candidate.None? then current
    else if current.None? || candidate.value < current.value then candidate else current
  }
}
