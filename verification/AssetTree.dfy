/** The asset hierarchy as linked nodes that are merged in place. */
module AssetTree {
  import opened AssetForest

  class AssetNode {
    const name: string
    var telemetries: seq<Telemetry>
    var children: seq<AssetNode>

    constructor (nodeName: string)
      ensures name == nodeName && telemetries == [] && children == []
    {
      name, telemetries, children := nodeName, [], [];
    }
  }

  // ---- Shapes ----

  /** Sibling nodes from first to last, each with the shape below it. */
  datatype Shape = Nil | Shape(node: AssetNode, below: Shape, next: Shape)

  ghost function Size(s: Shape): nat {
    if s.Nil? then 0 else 1 + Size(s.below) + Size(s.next)
  }

  ghost function Heads(s: Shape): seq<AssetNode> {
    if s.Nil? then [] else [s.node] + Heads(s.next)
  }

  ghost function Objects(s: Shape): set<AssetNode> {
    if s.Nil? then {} else {s.node} + Objects(s.below) + Objects(s.next)
  }

  /** No node occurs twice. */
  ghost predicate Apart(s: Shape) {
    s.Nil? || (
      && s.node !in Objects(s.below) && s.node !in Objects(s.next)
      && Objects(s.below) !! Objects(s.next)
      && Apart(s.below) && Apart(s.next))
  }

  /** The nodes are linked in this shape. */
  ghost predicate Built(s: Shape)
    reads Objects(s)
  {
    s.Nil? || (s.node.children == Heads(s.below) && Built(s.below) && Built(s.next))
  }

  ghost function Value(s: Shape): Forest
    reads Objects(s)
  {
    if s.Nil? then End else Node(s.node.name, s.node.telemetries, Value(s.below), Value(s.next))
  }

  /** `parent` heads a proper tree with this shape below it. */
  ghost predicate Tree(parent: AssetNode, s: Shape)
    reads parent, Objects(s)
  {
    parent !in Objects(s) && parent.children == Heads(s) && Apart(s) && Built(s)
  }

  // ---- Positions among siblings ----

  /** The siblings from the `k`th on. */
  ghost function From(s: Shape, k: nat): Shape
    requires k < |Heads(s)|
    ensures From(s, k).Shape? && Objects(From(s, k)) <= Objects(s)
  {
    if k == 0 then s else From(s.next, k - 1)
  }

  ghost function WithBelow(s: Shape, k: nat, below: Shape): Shape
    requires k < |Heads(s)|
  {
    if k == 0 then s.(below := below) else s.(next := WithBelow(s.next, k - 1, below))
  }

  ghost function Append(s: Shape, node: AssetNode, below: Shape): Shape {
    if s.Nil? then Shape(node, below, Nil) else s.(next := Append(s.next, node, below))
  }

  /** The `k`th node of a forest with other contents. */
  function PutAt(f: Forest, k: nat, telemetries: seq<Telemetry>, below: Forest): Forest {
    if f.End? then f
    else if k == 0 then f.(telemetries := telemetries, below := below)
    else f.(next := PutAt(f.next, k - 1, telemetries, below))
  }

  function FromNode(f: Forest, k: nat): Forest {
    if f.End? || k == 0 then f else FromNode(f.next, k - 1)
  }

  /** The `k`th node is the first of this name. */
  predicate FirstNamed(f: Forest, k: nat, name: string) {
    f.Node? && if k == 0 then f.name == name else f.name != name && FirstNamed(f.next, k - 1, name)
  }

  lemma {:induction false} MergeNodeAtFirst(f: Forest, k: nat, name: string, telemetries: seq<Telemetry>, below: Forest)
    requires FirstNamed(f, k, name)
    ensures var at := FromNode(f, k);
            at.Node? && MergeNode(f, name, telemetries, below)
                == PutAt(f, k, at.telemetries + telemetries, MergeAll(at.below, below))
  {
    if k > 0 {
      MergeNodeAtFirst(f.next, k - 1, name, telemetries, below);
    }
  }

  lemma {:induction false} MergeAtFirst(f: Forest, k: nat, path: Path, name: string, telemetries: seq<Telemetry>,
                                        below: Forest)
    requires path != [] && FirstNamed(f, k, path[0])
    ensures var at := FromNode(f, k);
            at.Node? && var arrived := Arrive(path, at, name, telemetries, below);
            MergeAt(f, path, name, telemetries, below) == PutAt(f, k, arrived.telemetries, arrived.below)
  {
    if k > 0 {
      MergeAtFirst(f.next, k - 1, path, name, telemetries, below);
    }
  }

  lemma {:induction false} MergeUnnamed(f: Forest, path: Path, name: string, telemetries: seq<Telemetry>, below: Forest)
    requires !HasName(f, if path == [] then name else path[0])
    ensures MergeAt(f, path, name, telemetries, below)
         == AppendNode(f, if path == [] then Node(name, telemetries, below, End)
                          else Arrive(path, Node(path[0], [], End, End), name, telemetries, below))
    decreases f
  {
    if f.Node? {
      MergeUnnamed(f.next, path, name, telemetries, below);
    }
  }

  lemma {:induction false} FromIsApart(s: Shape, k: nat)
    requires k < |Heads(s)| && Apart(s)
    ensures Apart(From(s, k)) && From(s, k).node == Heads(s)[k]
  {
    if k > 0 {
      FromIsApart(s.next, k - 1);
    }
  }

  lemma {:induction false} WithBelowIsApart(s: Shape, k: nat, below: Shape)
    requires k < |Heads(s)| && Apart(s) && Apart(below)
    requires From(s, k).node !in Objects(below)
    requires forall o :: o in Objects(below) && o in Objects(s) ==> o in Objects(From(s, k).below)
    ensures Apart(WithBelow(s, k, below)) && Heads(WithBelow(s, k, below)) == Heads(s)
    ensures Objects(WithBelow(s, k, below)) <= Objects(s) + Objects(below)
  {
    if k > 0 {
      assert From(s, k) == From(s.next, k - 1);
      WithBelowIsApart(s.next, k - 1, below);
    }
  }

  lemma {:induction false} AppendIsApart(s: Shape, node: AssetNode, below: Shape)
    requires Apart(s) && Apart(below) && node !in Objects(s) && node !in Objects(below) && Objects(s) !! Objects(below)
    ensures var t := Append(s, node, below);
            Apart(t) && Heads(t) == Heads(s) + [node] && Objects(t) == Objects(s) + {node} + Objects(below)
  {
    if s.Shape? {
      AppendIsApart(s.next, node, below);
    }
  }

  lemma {:induction false} AppendIsBuilt(s: Shape, node: AssetNode, below: Shape)
    requires Built(s) && Built(below) && node.children == Heads(below)
    ensures Built(Append(s, node, below))
    ensures Value(Append(s, node, below)) == AppendNode(Value(s), Node(node.name, node.telemetries, Value(below), End))
  {
    if s.Shape? {
      AppendIsBuilt(s.next, node, below);
    }
  }

  /** All but the `k`th sibling and what is below it. */
  ghost function Others(s: Shape, k: nat): set<AssetNode>
    requires k < |Heads(s)|
  {
    if k == 0 then Objects(s.next) else {s.node} + Objects(s.below) + Others(s.next, k - 1)
  }

  /** Apart from its `k`th node, the shape has the value `f`. */
  ghost predicate OthersAre(s: Shape, k: nat, f: Forest)
    requires k < |Heads(s)|
    reads Others(s, k)
  {
    && f.Node? && f.name == s.node.name
    && if k == 0 then Built(s.next) && Value(s.next) == f.next
       else
         && f.telemetries == s.node.telemetries && s.node.children == Heads(s.below)
         && Built(s.below) && Value(s.below) == f.below
         && OthersAre(s.next, k - 1, f.next)
  }

  lemma {:induction false} OthersAreApart(s: Shape, k: nat)
    requires k < |Heads(s)| && Apart(s)
    ensures From(s, k).node !in Others(s, k) && Objects(From(s, k).below) !! Others(s, k) && Others(s, k) <= Objects(s)
  {
    if k > 0 {
      OthersAreApart(s.next, k - 1);
      assert From(s, k) == From(s.next, k - 1);
    }
  }

  lemma {:induction false} OthersOf(s: Shape, k: nat)
    requires k < |Heads(s)| && Built(s)
    ensures OthersAre(s, k, Value(s)) && Built(From(s, k)) && FromNode(Value(s), k) == Value(From(s, k))
  {
    if k > 0 {
      OthersOf(s.next, k - 1);
    }
  }

  /** The value once the `k`th node and what is below it have changed. */
  lemma {:induction false} WithBelowIsBuilt(s: Shape, k: nat, below: Shape, f: Forest)
    requires k < |Heads(s)| && OthersAre(s, k, f)
    requires From(s, k).node.children == Heads(below) && Built(below)
    ensures Built(WithBelow(s, k, below))
    ensures Value(WithBelow(s, k, below)) == PutAt(f, k, From(s, k).node.telemetries, Value(below))
  {
    if k > 0 {
      assert From(s, k) == From(s.next, k - 1);
      WithBelowIsBuilt(s.next, k - 1, below, f.next);
    }
  }

  // ---- The merge ----

  /** `FirstOrDefault(c => c.Name == name)`, and where it stands. */
  method FindChild(parent: AssetNode, name: string, ghost s: Shape) returns (found: AssetNode?, ghost k: nat)
    requires Tree(parent, s)
    ensures found == null ==> !HasName(Value(s), name) && forall child :: child in Heads(s) ==> child.name != name
    ensures found != null ==> k < |Heads(s)| && Heads(s)[k] == found && FirstNamed(Value(s), k, name)
  {
    found, k := null, 0;
    for i := 0 to |parent.children|
      invariant forall j :: 0 <= j < i ==> parent.children[j].name != name
    {
      if parent.children[i].name == name {
        FirstIs(s, i, name);
        return parent.children[i], i;
      }
    }
    NoneIs(s, name);
  }

  lemma {:induction false} FirstIs(s: Shape, k: nat, name: string)
    requires k < |Heads(s)| && Heads(s)[k].name == name
    requires forall j :: 0 <= j < k ==> Heads(s)[j].name != name
    ensures FirstNamed(Value(s), k, name)
  {
    if k > 0 {
      assert Heads(s)[0] == s.node;
      assert forall j :: 0 <= j < k ==> Heads(s)[j + 1] == Heads(s.next)[j];
      FirstIs(s.next, k - 1, name);
    }
  }

  lemma {:induction false} NoneIs(s: Shape, name: string)
    requires forall j :: 0 <= j < |Heads(s)| ==> Heads(s)[j].name != name
    ensures !HasName(Value(s), name)
  {
    if s.Shape? {
      assert Heads(s)[0] == s.node;
      assert forall j :: 0 <= j < |Heads(s.next)| ==> Heads(s)[j + 1] == Heads(s.next)[j];
      NoneIs(s.next, name);
    }
  }

  method AddChild(parent: AssetNode, child: AssetNode, ghost s: Shape, ghost below: Shape) returns (ghost after: Shape)
    requires Tree(parent, s) && Tree(child, below)
    requires {parent} + Objects(s) !! {child} + Objects(below)
    modifies parent`children
    ensures after == Append(s, child, below) && Tree(parent, after)
    ensures Objects(after) == Objects(s) + {child} + Objects(below)
    ensures Value(after) == AppendNode(Value(s), Node(child.name, child.telemetries, Value(below), End))
  {
    parent.children := parent.children + [child];
    after := Append(s, child, below);
    AppendIsApart(s, child, below);
    AppendIsBuilt(s, child, below);
  }

  /** A tree and the separate tree of a node to be merged into it, with the nodes they consist of. */
  ghost predicate Separate(parent: AssetNode, s: Shape, nodes: set<AssetNode>, node: AssetNode, own: Shape,
                           ownNodes: set<AssetNode>)
    reads {parent, node} + Objects(s) + Objects(own)
  {
    && nodes == Objects(s) && ownNodes == Objects(own)
    && Tree(parent, s) && Tree(node, own)
    && {parent} + nodes !! {node} + ownNodes
  }

  /** The tree below the `k`th child, and what is beside it. */
  lemma ChildTree(parent: AssetNode, s: Shape, k: nat)
    requires Tree(parent, s) && k < |Heads(s)|
    ensures var at := From(s, k);
            && at.node == Heads(s)[k] && Tree(at.node, at.below)
            && Objects(at.below) <= Objects(s) && at.node in Objects(s)
            && ({at.node} + Objects(at.below)) !! Others(s, k) && Others(s, k) <= Objects(s)
            && OthersAre(s, k, Value(s)) && FromNode(Value(s), k) == Value(at)
  {
    FromIsApart(s, k);
    OthersOf(s, k);
    OthersAreApart(s, k);
  }

  /** The whole tree once the tree below its `k`th child has changed. */
  lemma ChildTreeChanged(parent: AssetNode, s: Shape, k: nat, below: Shape, f: Forest)
    requires parent.children == Heads(s) && Apart(s) && k < |Heads(s)|
    requires parent !in Objects(s) && parent !in Objects(below)
    requires Tree(From(s, k).node, below) && OthersAre(s, k, f)
    requires forall o :: o in Objects(below) && o in Objects(s) ==> o in Objects(From(s, k).below)
    ensures Tree(parent, WithBelow(s, k, below)) && Objects(WithBelow(s, k, below)) <= Objects(s) + Objects(below)
    ensures Value(WithBelow(s, k, below)) == PutAt(f, k, From(s, k).node.telemetries, Value(below))
  {
    WithBelowIsApart(s, k, below);
    WithBelowIsBuilt(s, k, below, f);
  }

  /** Adds the node's telemetries to `existing` and merges its children into it. */
  method JoinNode(existing: AssetNode, node: AssetNode, ghost s: Shape, ghost nodes: set<AssetNode>, ghost own: Shape,
                  ghost ownNodes: set<AssetNode>)
    returns (ghost after: Shape, ghost afterNodes: set<AssetNode>)
    requires Separate(existing, s, nodes, node, own, ownNodes)
    modifies existing, nodes, ownNodes
    ensures Tree(existing, after) && afterNodes == Objects(after)
    ensures fresh(afterNodes - nodes - ownNodes)
    ensures existing.telemetries == old(existing.telemetries) + node.telemetries
    ensures Value(after) == MergeAll(old(Value(s)), old(Value(own)))
    decreases 0, Size(own), 2
  {
    existing.telemetries := existing.telemetries + node.telemetries;
    after, afterNodes := JoinChildren(existing, node, s, nodes, own, ownNodes);
  }

  /** What is left to merge of a node's children. */
  ghost predicate Remaining(existing: AssetNode, s: Shape, nodes: set<AssetNode>, rest: Shape,
                            restNodes: set<AssetNode>)
    reads existing, Objects(s), Objects(rest)
  {
    && nodes == Objects(s) && Tree(existing, s)
    && restNodes == Objects(rest) && Apart(rest) && Built(rest)
    && nodes !! restNodes && existing !in restNodes
  }

  method JoinChildren(existing: AssetNode, node: AssetNode, ghost s: Shape, ghost nodes: set<AssetNode>,
                      ghost own: Shape, ghost ownNodes: set<AssetNode>)
    returns (ghost after: Shape, ghost afterNodes: set<AssetNode>)
    requires Separate(existing, s, nodes, node, own, ownNodes)
    modifies existing, nodes, ownNodes
    ensures Tree(existing, after) && afterNodes == Objects(after)
    ensures fresh(afterNodes - nodes - ownNodes)
    ensures existing.telemetries == old(existing.telemetries)
    ensures Value(after) == MergeAll(old(Value(s)), old(Value(own)))
    decreases 0, Size(own), 1
  {
    ghost var merged := MergeAll(Value(s), Value(own));
    after, afterNodes := s, nodes;
    ghost var rest, restNodes := own, ownNodes;
    for i := 0 to |node.children|
      invariant node.children == old(node.children) && existing.telemetries == old(existing.telemetries)
      invariant Heads(rest) == node.children[i..] && Size(rest) <= Size(own)
      invariant Remaining(existing, after, afterNodes, rest, restNodes) && restNodes <= ownNodes
      invariant fresh(afterNodes - nodes - ownNodes) && node !in afterNodes
      invariant MergeAll(Value(after), Value(rest)) == merged
    {
      var child := node.children[i];
      assert node.children[i..] == [child] + node.children[i + 1..];
      assert Heads(rest)[0] == child && Heads(rest)[1..] == node.children[i + 1..];
      after, afterNodes, rest, restNodes := JoinChild(existing, child, after, afterNodes, rest, restNodes);
    }
  }

  /** Merges the first of the remaining children. */
  method JoinChild(existing: AssetNode, child: AssetNode, ghost s: Shape, ghost nodes: set<AssetNode>,
                   ghost rest: Shape, ghost restNodes: set<AssetNode>)
    returns (ghost after: Shape, ghost afterNodes: set<AssetNode>, ghost next: Shape, ghost nextNodes: set<AssetNode>)
    requires rest.Shape? && rest.node == child && Remaining(existing, s, nodes, rest, restNodes)
    modifies existing, nodes, restNodes
    ensures next == rest.next && Heads(next) == Heads(rest)[1..] && nextNodes <= restNodes
              && Remaining(existing, after, afterNodes, next, nextNodes)
    ensures fresh(afterNodes - nodes - restNodes)
    ensures existing.telemetries == old(existing.telemetries)
    ensures MergeAll(Value(after), Value(next)) == MergeAll(old(Value(s)), old(Value(rest)))
    decreases 0, Size(rest), 0
  {
    ghost var belowNodes := restNodes * Objects(rest.below);
    next, nextNodes := rest.next, restNodes * Objects(rest.next);
    after, afterNodes := MergeDtoIntoTree(existing, child, [], s, nodes, rest.below, belowNodes);
    assert Value(next) == old(Value(rest.next));
  }

  /** Joins the node with the child of its name. */
  method JoinAt(parent: AssetNode, existing: AssetNode, ghost k: nat, node: AssetNode, ghost s: Shape,
                ghost nodes: set<AssetNode>,
                ghost own: Shape, ghost ownNodes: set<AssetNode>)
    returns (ghost after: Shape, ghost afterNodes: set<AssetNode>)
    requires Separate(parent, s, nodes, node, own, ownNodes)
    requires k < |Heads(s)| && Heads(s)[k] == existing && FirstNamed(Value(s), k, node.name)
    modifies parent, nodes, ownNodes
    ensures Tree(parent, after) && afterNodes == Objects(after)
    ensures fresh(afterNodes - nodes - ownNodes - {node})
    ensures parent.telemetries == old(parent.telemetries)
    ensures Value(after) == MergeNode(old(Value(s)), node.name, old(node.telemetries), old(Value(own)))
    decreases 0, Size(own), 3
  {
    ghost var f, below := Value(s), From(s, k).below;
    ghost var belowNodes := nodes * Objects(below);
    ChildTree(parent, s, k);
    MergeNodeAtFirst(f, k, node.name, node.telemetries, Value(own));
    ghost var joined, joinedNodes := JoinNode(existing, node, below, belowNodes, own, ownNodes);
    ChildTreeChanged(parent, s, k, joined, f);
    after := WithBelow(s, k, joined);
    afterNodes := (nodes + joinedNodes) * Objects(after);
  }

  lemma {:induction false} FolderAppended(f: Forest, folder: string)
    requires !HasName(f, folder)
    ensures var g := AppendNode(f, Node(folder, [], End, End));
            forall path: Path, name, telemetries, below :: path != [] && path[0] == folder ==>
              MergeAt(g, path, name, telemetries, below) == MergeAt(f, path, name, telemetries, below)
  {
    if f.Node? {
      FolderAppended(f.next, folder);
    }
  }

  /** The child for a path segment, made if it is missing. */
  method Folder(parent: AssetNode, segment: string, ghost s: Shape, ghost nodes: set<AssetNode>)
    returns (next: AssetNode, ghost k: nat, ghost after: Shape, ghost afterNodes: set<AssetNode>)
    requires Tree(parent, s) && nodes == Objects(s)
    modifies parent`children
    ensures Tree(parent, after) && afterNodes == Objects(after) && fresh(afterNodes - nodes)
    ensures k < |Heads(after)| && Heads(after)[k] == next && FirstNamed(Value(after), k, segment)
    ensures forall path: Path, name, telemetries, below :: path != [] && path[0] == segment ==>
              MergeAt(Value(after), path, name, telemetries, below)
                  == MergeAt(old(Value(s)), path, name, telemetries, below)
  {
    var found;
    found, k := FindChild(parent, segment, s);
    if found != null {
      next, after, afterNodes := found, s, nodes;
    } else {
      FolderAppended(Value(s), segment);
      next := new AssetNode(segment);
      after := AddChild(parent, next, s, Nil);
      afterNodes := nodes + {next};
      k := |Heads(s)|;
      AppendIsApart(s, next, Nil);
      assert forall j :: 0 <= j < k ==> Heads(after)[j] == Heads(s)[j] && Heads(s)[j] in Heads(s);
      FirstIs(after, k, segment);
    }
  }

  /** Goes on from the folder for the first segment; `at` is that folder's value. */
  method Descend(next: AssetNode, node: AssetNode, path: Path, ghost at: Forest, ghost s: Shape,
                 ghost nodes: set<AssetNode>,
                 ghost own: Shape, ghost ownNodes: set<AssetNode>)
    returns (ghost after: Shape, ghost afterNodes: set<AssetNode>)
    requires path != [] && Separate(next, s, nodes, node, own, ownNodes)
    requires at.Node? && next.name == path[0] && at.telemetries == next.telemetries && at.below == Value(s)
    modifies next, nodes, ownNodes
    ensures Tree(next, after) && afterNodes == Objects(after)
    ensures fresh(afterNodes - nodes - ownNodes - {node})
    ensures var arrived := Arrive(path, at, node.name, old(node.telemetries), old(Value(own)));
            next.telemetries == arrived.telemetries && Value(after) == arrived.below
    decreases |path|, Size(own), 3
  {
    var remainingPath := path[1..];
    if |remainingPath| == 0 {
      if node.name == path[0] {
        after, afterNodes := JoinNode(next, node, s, nodes, own, ownNodes);
      } else {
        after, afterNodes := MergeDtoIntoTree(next, node, [], s, nodes, own, ownNodes);
      }
    } else {
      after, afterNodes := MergeDtoIntoTree(next, node, remainingPath, s, nodes, own, ownNodes);
    }
  }

  /** Merges `node` into the tree under `parent`, at `path`. */
  method MergeDtoIntoTree(parent: AssetNode, node: AssetNode, path: Path, ghost s: Shape, ghost nodes: set<AssetNode>,
                          ghost own: Shape, ghost ownNodes: set<AssetNode>)
    returns (ghost after: Shape, ghost afterNodes: set<AssetNode>)
    requires Separate(parent, s, nodes, node, own, ownNodes)
    modifies parent, nodes, ownNodes
    ensures Tree(parent, after) && afterNodes == Objects(after)
    ensures fresh(afterNodes - nodes - ownNodes - {node})
    ensures parent.telemetries == old(parent.telemetries)
    ensures Value(after) == MergeAt(old(Value(s)), path, node.name, old(node.telemetries), old(Value(own)))
    decreases |path|, Size(own), 5
  {
    if path == [] {
      var existing, k := FindChild(parent, node.name, s);
      if existing != null {
        after, afterNodes := JoinAt(parent, existing, k, node, s, nodes, own, ownNodes);
      } else {
        MergeUnnamed(Value(s), [], node.name, node.telemetries, Value(own));
        after := AddChild(parent, node, s, own);
        afterNodes := nodes + {node} + ownNodes;
      }
    } else {
      var next, k, grown, grownNodes := Folder(parent, path[0], s, nodes);
      after, afterNodes := DescendAt(parent, next, k, node, path, grown, grownNodes, own, ownNodes);
    }
  }

  method DescendAt(parent: AssetNode, next: AssetNode, ghost k: nat, node: AssetNode, path: Path, ghost s: Shape,
                   ghost nodes: set<AssetNode>,
                   ghost own: Shape, ghost ownNodes: set<AssetNode>)
    returns (ghost after: Shape, ghost afterNodes: set<AssetNode>)
    requires path != [] && Separate(parent, s, nodes, node, own, ownNodes)
    requires k < |Heads(s)| && Heads(s)[k] == next && FirstNamed(Value(s), k, path[0])
    modifies parent, nodes, ownNodes
    ensures Tree(parent, after) && afterNodes == Objects(after)
    ensures fresh(afterNodes - nodes - ownNodes - {node})
    ensures parent.telemetries == old(parent.telemetries)
    ensures Value(after) == MergeAt(old(Value(s)), path, node.name, old(node.telemetries), old(Value(own)))
    decreases |path|, Size(own), 4
  {
    ghost var f, below := Value(s), From(s, k).below;
    ghost var belowNodes := nodes * Objects(below);
    ChildTree(parent, s, k);
    FirstName(f, k, path[0]);
    MergeAtFirst(f, k, path, node.name, node.telemetries, Value(own));
    ghost var grown, grownNodes := Descend(next, node, path, FromNode(f, k), below, belowNodes, own, ownNodes);
    ChildTreeChanged(parent, s, k, grown, f);
    after := WithBelow(s, k, grown);
    afterNodes := (nodes + grownNodes) * Objects(after);
  }

  lemma {:induction false} FirstName(f: Forest, k: nat, name: string)
    requires FirstNamed(f, k, name)
    ensures FromNode(f, k).Node? && FromNode(f, k).name == name
  {
    if k > 0 {
      FirstName(f.next, k - 1, name);
    }
  }
}
