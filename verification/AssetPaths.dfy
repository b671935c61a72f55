/** Which nodes a merged asset hierarchy has, and in which order siblings stand. */
module AssetPaths {
  import opened AssetForest

  /** Following first name matches leads to a node. */
  predicate Exists(f: Forest, q: Path)
    decreases |q|, f
  {
    if q == [] then true
    else
      match f
      case End => false
      case Node(n, _, b, next) => if n != q[0] then Exists(next, q) else Exists(b, q[1..])
  }

  lemma {:induction false} NoSuchSibling(f: Forest, q: Path)
    requires q != [] && !HasName(f, q[0])
    ensures !Exists(f, q)
  {
    if f.Node? {
      NoSuchSibling(f.next, q);
    }
  }

  lemma {:induction false} MergeNodeExists(f: Forest, name: string, telemetries: seq<Telemetry>, below: Forest,
                                           q: Path)
    requires UniqueNames(below)
    ensures Exists(MergeNode(f, name, telemetries, below), q)
       <==> Exists(f, q) || Exists(Node(name, telemetries, below, End), q)
    decreases below, 1, f
  {
    if q != [] && f.Node? {
      if f.name != name {
        MergeNodeExists(f.next, name, telemetries, below, q);
      } else if q[0] == name {
        MergeAllExists(f.below, below, q[1..]);
      }
    }
  }

  lemma {:induction false} MergeAllExists(f: Forest, kids: Forest, q: Path)
    requires UniqueNames(kids)
    ensures Exists(MergeAll(f, kids), q) <==> Exists(f, q) || Exists(kids, q)
    decreases kids, 0
  {
    if kids.Node? {
      MergeNodeExists(f, kids.name, kids.telemetries, kids.below, q);
      MergeAllExists(MergeNode(f, kids.name, kids.telemetries, kids.below), kids.next, q);
      if q != [] && q[0] == kids.name {
        NoSuchSibling(kids.next, q);
      }
    }
  }

  /** The node's own tree, hung up at the end of `above`. */
  function Chain(above: Path, node: Forest): Forest {
    if above == [] then node else Node(above[0], [], Chain(above[1..], node), End)
  }

  /** Where a merged node hangs: below the whole path, or below all but its last folder if that has its name. */
  function Above(path: Path, name: string): Path {
    if path != [] && path[|path| - 1] == name then path[..|path| - 1] else path
  }

  lemma AboveRest(path: Path, name: string)
    requires |path| > 1
    ensures Above(path, name) == [path[0]] + Above(path[1..], name)
  {
  }

  lemma ChainDeeper(path: Path, name: string, node: Forest)
    requires |path| > 1
    ensures Chain(Above(path, name), node) == Node(path[0], [], Chain(Above(path[1..], name), node), End)
  {
    AboveRest(path, name);
    assert Above(path, name)[1..] == Above(path[1..], name);
  }

  /**
   * After a merge there is a node at exactly those paths where there was one, where the merged node's tree has one
   * when it hangs in its folders, and at these folders.
   */
  lemma {:induction false} MergeExists(f: Forest, path: Path, name: string, telemetries: seq<Telemetry>, below: Forest,
                                       q: Path)
    requires UniqueNames(below)
    ensures Exists(MergeAt(f, path, name, telemetries, below), q)
       <==> Exists(f, q) || Exists(Chain(Above(path, name), Node(name, telemetries, below, End)), q)
    decreases |path|, 1, f
  {
    if path == [] {
      MergeNodeExists(f, name, telemetries, below, q);
    } else if f.End? {
      ArriveExists(path, Node(path[0], [], End, End), name, telemetries, below, q);
      FolderOnChain(path, name, Node(name, telemetries, below, End), q);
    } else if f.name == path[0] {
      ArriveExists(path, f, name, telemetries, below, q);
    } else {
      MergeExists(f.next, path, name, telemetries, below, q);
      if q != [] && q[0] == f.name {
        ChainElsewhere(path, name, Node(name, telemetries, below, End), q);
      }
    }
  }

  /** The first folder is on the chain, or is the node itself. */
  lemma FolderOnChain(path: Path, name: string, node: Forest, q: Path)
    requires path != [] && node.Node? && node.name == name
    ensures Exists(Node(path[0], [], End, End), q) ==> Exists(Chain(Above(path, name), node), q)
  {
    if q != [] && Exists(Node(path[0], [], End, End), q) {
      assert !Exists(End, q) && (Exists(End, q[1..]) <==> q[1..] == []);
      assert q[0] == path[0] && q[1..] == [];
      if |path| > 1 {
        ChainDeeper(path, name, node);
      } else {
        assert path[..0] == [] && path == [path[0]];
      }
    }
  }

  lemma ChainElsewhere(path: Path, name: string, node: Forest, q: Path)
    requires path != [] && node.Node? && node.name == name && node.next.End? && q != [] && q[0] != path[0]
    ensures !Exists(Chain(Above(path, name), node), q)
  {
    if |path| > 1 {
      ChainDeeper(path, name, node);
    }
  }

  lemma {:induction false} ArriveExists(path: Path, f: Forest, name: string, telemetries: seq<Telemetry>,
                                        below: Forest, q: Path)
    requires path != [] && f.Node? && f.name == path[0] && UniqueNames(below)
    ensures Exists(Arrive(path, f, name, telemetries, below), q)
       <==> Exists(f, q) || Exists(Chain(Above(path, name), Node(name, telemetries, below, End)), q)
    decreases |path|, 0
  {
    if q != [] && q[0] == f.name {
      if |path| > 1 {
        ChainDeeper(path, name, Node(name, telemetries, below, End));
        MergeExists(f.below, path[1..], name, telemetries, below, q[1..]);
      } else if name == path[0] {
        MergeAllExists(f.below, below, q[1..]);
      } else {
        MergeNodeExists(f.below, name, telemetries, below, q[1..]);
        assert Above(path, name) == [path[0]] && [path[0]][1..] == [];
      }
    } else if q != [] {
      ChainElsewhere(path, name, Node(name, telemetries, below, End), q);
    }
  }

  // ---- The order of siblings ----

  function Names(f: Forest): seq<string> {
    if f.End? then [] else [f.name] + Names(f.next)
  }

  lemma {:induction false} MergeNodeOrder(f: Forest, name: string, telemetries: seq<Telemetry>, below: Forest)
    ensures Names(MergeNode(f, name, telemetries, below)) == if name in Names(f) then Names(f) else Names(f) + [name]
  {
    if f.Node? && f.name != name {
      MergeNodeOrder(f.next, name, telemetries, below);
    }
  }

  /** Siblings stay in place, and a new one comes last: the first folder of the path, or the node itself. */
  lemma {:induction false} MergeOrder(f: Forest, path: Path, name: string, telemetries: seq<Telemetry>, below: Forest)
    ensures var top := if path == [] then name else path[0];
            Names(MergeAt(f, path, name, telemetries, below)) == if top in Names(f) then Names(f) else Names(f) + [top]
    decreases |path|, f
  {
    if path == [] {
      MergeNodeOrder(f, name, telemetries, below);
    } else if f.Node? && f.name != path[0] {
      MergeOrder(f.next, path, name, telemetries, below);
    }
  }

  /** A tree without a path comes behind all roots. */
  lemma {:induction false} AppendOrder(f: Forest, node: Forest)
    ensures Names(AppendNode(f, node)) == Names(f) + Names(node)
  {
    if f.Node? {
      AppendOrder(f.next, node);
    }
  }
}
