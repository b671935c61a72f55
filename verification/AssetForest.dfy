/** What merging device trees into the asset hierarchy means, on values. */
module AssetForest {

  datatype Telemetry = Telemetry(key: string)

  /** Sibling nodes from first to last, each with the forest below it. */
  datatype Forest = End | Node(name: string, telemetries: seq<Telemetry>, below: Forest, next: Forest)

  type Path = seq<string>

  // ---- The merge ----

  /** Joins a node with the first sibling of its name, or puts it last. */
  function MergeNode(f: Forest, name: string, telemetries: seq<Telemetry>, below: Forest): Forest
    decreases below, 1, f
  {
    match f
    case End => Node(name, telemetries, below, End)
    case Node(n, t, b, next) =>
      if n == name then Node(n, t + telemetries, MergeAll(b, below), next)
      else Node(n, t, b, MergeNode(next, name, telemetries, below))
  }

  /** Merges every node of `kids` in turn. */
  function MergeAll(f: Forest, kids: Forest): Forest
    decreases kids, 0
  {
    match kids
    case End => f
    case Node(n, t, b, next) => MergeAll(MergeNode(f, n, t, b), next)
  }

  /** Merges a node at a path below `f`, making the folders that are missing. */
  function MergeAt(f: Forest, path: Path, name: string, telemetries: seq<Telemetry>, below: Forest): Forest
    decreases |path|, 1, f
  {
    if path == [] then MergeNode(f, name, telemetries, below)
    else
      match f
      case End => Arrive(path, Node(path[0], [], End, End), name, telemetries, below)
      case Node(n, t, b, next) =>
        if n == path[0] then Arrive(path, f, name, telemetries, below)
        else Node(n, t, b, MergeAt(next, path, name, telemetries, below))
  }

  /** Goes on from the node for the first segment, the head of `f`. */
  function Arrive(path: Path, f: Forest, name: string, telemetries: seq<Telemetry>, below: Forest): Forest
    requires path != [] && f.Node?
    decreases |path|, 0
  {
    if |path| > 1 then f.(below := MergeAt(f.below, path[1..], name, telemetries, below))
    else if name == path[0] then f.(telemetries := f.telemetries + telemetries, below := MergeAll(f.below, below))
    else f.(below := MergeNode(f.below, name, telemetries, below))
  }

  // ---- Nothing is lost ----

  /** All telemetries of a forest. */
  function All(f: Forest): multiset<Telemetry> {
    match f
    case End => multiset{}
    case Node(_, t, b, next) => multiset(t) + All(b) + All(next)
  }

  lemma {:induction false} MergeNodeConserves(f: Forest, name: string, telemetries: seq<Telemetry>, below: Forest)
    ensures All(MergeNode(f, name, telemetries, below)) == All(f) + multiset(telemetries) + All(below)
    decreases below, 1, f
  {
    if f.Node? {
      if f.name == name {
        MergeAllConserves(f.below, below);
      } else {
        MergeNodeConserves(f.next, name, telemetries, below);
      }
    }
  }

  lemma {:induction false} MergeAllConserves(f: Forest, kids: Forest)
    ensures All(MergeAll(f, kids)) == All(f) + All(kids)
    decreases kids, 0
  {
    if kids.Node? {
      MergeNodeConserves(f, kids.name, kids.telemetries, kids.below);
      MergeAllConserves(MergeNode(f, kids.name, kids.telemetries, kids.below), kids.next);
    }
  }

  /** The tree holds exactly the telemetries it held plus those of the merged node. */
  lemma {:induction false} MergeConserves(f: Forest, path: Path, name: string, telemetries: seq<Telemetry>,
                                          below: Forest)
    ensures All(MergeAt(f, path, name, telemetries, below)) == All(f) + multiset(telemetries) + All(below)
    decreases |path|, 1, f
  {
    if path == [] {
      MergeNodeConserves(f, name, telemetries, below);
    } else if f.End? {
      ArriveConserves(path, Node(path[0], [], End, End), name, telemetries, below);
    } else if f.name == path[0] {
      ArriveConserves(path, f, name, telemetries, below);
    } else {
      MergeConserves(f.next, path, name, telemetries, below);
    }
  }

  lemma {:induction false} ArriveConserves(path: Path, f: Forest, name: string, telemetries: seq<Telemetry>,
                                           below: Forest)
    requires path != [] && f.Node?
    ensures All(Arrive(path, f, name, telemetries, below)) == All(f) + multiset(telemetries) + All(below)
    decreases |path|, 0
  {
    if |path| > 1 {
      MergeConserves(f.below, path[1..], name, telemetries, below);
    } else if name == path[0] {
      MergeAllConserves(f.below, below);
    } else {
      MergeNodeConserves(f.below, name, telemetries, below);
    }
  }

  // ---- Everything is found again ----

  /** The telemetries of the node reached by following first name matches; none where there is no such node. */
  function At(f: Forest, path: Path): seq<Telemetry>
    decreases |path|, f
  {
    if path == [] then []
    else
      match f
      case End => []
      case Node(n, t, b, next) =>
        if n != path[0] then At(next, path)
        else if |path| == 1 then t else At(b, path[1..])
  }

  /** No two siblings share a name, at any level. */
  predicate UniqueNames(f: Forest) {
    f.Node? ==> !HasName(f.next, f.name) && UniqueNames(f.below) && UniqueNames(f.next)
  }

  predicate HasName(f: Forest, name: string) {
    f.Node? && (f.name == name || HasName(f.next, name))
  }

  lemma {:induction false} NotNamed(f: Forest, path: Path)
    requires path != [] && !HasName(f, path[0])
    ensures At(f, path) == []
  {
    if f.Node? {
      NotNamed(f.next, path);
    }
  }

  lemma {:induction false} MergeNodeFound(f: Forest, name: string, telemetries: seq<Telemetry>, below: Forest, q: Path)
    requires UniqueNames(below)
    ensures At(MergeNode(f, name, telemetries, below), q) == At(f, q) + At(Node(name, telemetries, below, End), q)
    decreases below, 1, f
  {
    if q != [] && f.Node? {
      if f.name != name {
        MergeNodeFound(f.next, name, telemetries, below, q);
      } else if q[0] == name && |q| > 1 {
        MergeAllFound(f.below, below, q[1..]);
      }
    }
  }

  /** Following any path finds what was there, and behind it what the other forest has there. */
  lemma {:induction false} MergeAllFound(f: Forest, kids: Forest, q: Path)
    requires UniqueNames(kids)
    ensures At(MergeAll(f, kids), q) == At(f, q) + At(kids, q)
    decreases kids, 0
  {
    if kids.Node? {
      MergeNodeFound(f, kids.name, kids.telemetries, kids.below, q);
      MergeAllFound(MergeNode(f, kids.name, kids.telemetries, kids.below), kids.next, q);
      if q != [] && q[0] == kids.name {
        NotNamed(kids.next, q);
      }
    }
  }

  /** The path a merged node ends up at: the folder itself when it bears the node's name. */
  function Target(path: Path, name: string): Path {
    if path != [] && path[|path| - 1] == name then path else path + [name]
  }

  /** What the merged node has at `q`, once it sits at its target. */
  function Placed(path: Path, name: string, telemetries: seq<Telemetry>, below: Forest, q: Path): seq<Telemetry> {
    var above := |Target(path, name)| - 1;
    if |q| > above && q[..above] == Target(path, name)[..above]
    then At(Node(name, telemetries, below, End), q[above..])
    else []
  }

  lemma PlacedHere(target: Path, path: Path, name: string, telemetries: seq<Telemetry>, below: Forest, q: Path)
    requires target == Target(path, name) && |target| == 1
    ensures Placed(path, name, telemetries, below, q) == At(Node(name, telemetries, below, End), q)
  {
    assert q[0..] == q;
    if q != [] {
      assert q[..0] == target[..0];
    }
  }

  lemma PlacedDeeper(path: Path, name: string, telemetries: seq<Telemetry>, below: Forest, q: Path)
    requires |path| > 1 && q != []
    ensures Placed(path, name, telemetries, below, q)
         == if q[0] == path[0] then Placed(path[1..], name, telemetries, below, q[1..]) else []
  {
    var target, deeper := Target(path, name), Target(path[1..], name);
    assert target == [path[0]] + deeper;
    var above := |target| - 1;
    if |q| > above {
      assert q[..above] == [q[0]] + q[1..][..above - 1];
      assert target[..above] == [path[0]] + deeper[..above - 1];
      assert q[above..] == q[1..][above - 1..];
      assert q[0] == path[0] && q[1..][..above - 1] == deeper[..above - 1] ==> q[..above] == target[..above];
      assert q[..above] == target[..above] ==>
        q[..above][0] == target[..above][0] && q[..above][1..] == target[..above][1..];
    }
  }

  /** The two ways to arrive at the folder named by a path of one segment. */
  lemma JoinedFound(f: Forest, telemetries: seq<Telemetry>, below: Forest, q: Path)
    requires f.Node? && UniqueNames(below)
    ensures At(f.(telemetries := f.telemetries + telemetries, below := MergeAll(f.below, below)), q)
         == At(f, q) + At(Node(f.name, telemetries, below, End), q)
  {
    if |q| > 1 {
      MergeAllFound(f.below, below, q[1..]);
    }
  }

  lemma PutBelowFound(f: Forest, name: string, telemetries: seq<Telemetry>, below: Forest, q: Path)
    requires f.Node? && name != f.name && UniqueNames(below)
    ensures At(f.(below := MergeNode(f.below, name, telemetries, below)), q)
         == At(f, q) + Placed([f.name], name, telemetries, below, q)
  {
    PlacedBelowFolder(f.name, name, telemetries, below, q);
    if |q| > 1 {
      MergeNodeFound(f.below, name, telemetries, below, q[1..]);
    }
  }

  lemma PlacedBelowFolder(folder: string, name: string, telemetries: seq<Telemetry>, below: Forest, q: Path)
    requires name != folder
    ensures Placed([folder], name, telemetries, below, q)
         == if |q| > 1 && q[0] == folder then At(Node(name, telemetries, below, End), q[1..]) else []
  {
    var target := [folder, name];
    assert Target([folder], name) == target && target[..1] == [folder];
    if |q| > 1 {
      assert q[..1] == [q[0]];
      assert q[..1] == target[..1] <==> q[0] == folder;
    }
  }

  lemma {:induction false} ArriveFound(path: Path, f: Forest, name: string, telemetries: seq<Telemetry>, below: Forest,
                                       q: Path)
    requires path != [] && f.Node? && f.name == path[0] && UniqueNames(below)
    ensures At(Arrive(path, f, name, telemetries, below), q) == At(f, q) + Placed(path, name, telemetries, below, q)
    decreases |path|, 0
  {
    if |path| > 1 {
      if q != [] {
        PlacedDeeper(path, name, telemetries, below, q);
        if q[0] == path[0] {
          MergeFound(f.below, path[1..], name, telemetries, below, q[1..]);
        }
      }
    } else if name == path[0] {
      PlacedHere([name], path, name, telemetries, below, q);
      JoinedFound(f, telemetries, below, q);
    } else {
      assert path == [f.name];
      PutBelowFound(f, name, telemetries, below, q);
    }
  }

  /**
   * Following any path after a merge finds what was there before, and behind it what the merged node has
   * there, counted from its target.
   */
  lemma {:induction false} MergeFound(f: Forest, path: Path, name: string, telemetries: seq<Telemetry>, below: Forest,
                                      q: Path)
    requires UniqueNames(below)
    ensures At(MergeAt(f, path, name, telemetries, below), q) == At(f, q) + Placed(path, name, telemetries, below, q)
    decreases |path|, 1, f
  {
    if path == [] {
      MergeNodeFound(f, name, telemetries, below, q);
      PlacedHere([name], path, name, telemetries, below, q);
    } else if f.End? {
      ArriveFound(path, Node(path[0], [], End, End), name, telemetries, below, q);
    } else if f.name == path[0] {
      ArriveFound(path, f, name, telemetries, below, q);
    } else {
      MergeFound(f.next, path, name, telemetries, below, q);
      if q != [] && q[0] != path[0] {
        PlacedElsewhere(path, name, telemetries, below, q);
      }
    }
  }

  lemma PlacedElsewhere(path: Path, name: string, telemetries: seq<Telemetry>, below: Forest, q: Path)
    requires path != [] && q != [] && q[0] != path[0]
    ensures Placed(path, name, telemetries, below, q) == []
  {
    if |path| > 1 {
      PlacedDeeper(path, name, telemetries, below, q);
    } else {
      var target := Target(path, name);
      assert target[0] == path[0];
      if |target| == 1 {
        PlacedHere(target, path, name, telemetries, below, q);
      } else if |q| > 1 {
        assert q[..1][0] != target[..1][0];
      }
    }
  }

  /** The node's own telemetries are found at its target, behind those that were there, whatever the tree looks like. */
  lemma {:induction false} OwnTelemetriesFound(f: Forest, path: Path, name: string, telemetries: seq<Telemetry>,
                                               below: Forest)
    ensures At(MergeAt(f, path, name, telemetries, below), Target(path, name))
              == At(f, Target(path, name)) + telemetries
    decreases |path|, 1, f
  {
    var target := Target(path, name);
    if path == [] {
      assert target == [name];
      OwnTelemetriesHere(f, name, telemetries, below);
    } else {
      assert target[0] == path[0];
      if f.End? {
        OwnTelemetriesArrive(path, Node(path[0], [], End, End), name, telemetries, below);
      } else if f.name == path[0] {
        OwnTelemetriesArrive(path, f, name, telemetries, below);
      } else {
        OwnTelemetriesFound(f.next, path, name, telemetries, below);
      }
    }
  }

  lemma {:induction false} OwnTelemetriesHere(f: Forest, name: string, telemetries: seq<Telemetry>, below: Forest)
    ensures At(MergeNode(f, name, telemetries, below), [name]) == At(f, [name]) + telemetries
    decreases f
  {
    if f.Node? && f.name != name {
      OwnTelemetriesHere(f.next, name, telemetries, below);
    }
  }

  lemma {:induction false} OwnTelemetriesArrive(path: Path, f: Forest, name: string, telemetries: seq<Telemetry>,
                                                below: Forest)
    requires path != [] && f.Node? && f.name == path[0]
    ensures At(Arrive(path, f, name, telemetries, below), Target(path, name)) == At(f, Target(path, name)) + telemetries
    decreases |path|, 0
  {
    var target := Target(path, name);
    if |path| > 1 {
      assert target == [path[0]] + Target(path[1..], name);
      OwnTelemetriesFound(f.below, path[1..], name, telemetries, below);
    } else if name != path[0] {
      assert target == [path[0], name] && target[1..] == [name];
      OwnTelemetriesHere(f.below, name, telemetries, below);
    }
  }

  // ---- Sibling names stay unique ----

  lemma {:induction false} MergeNodeUnique(f: Forest, name: string, telemetries: seq<Telemetry>, below: Forest)
    requires UniqueNames(f) && UniqueNames(below)
    ensures UniqueNames(MergeNode(f, name, telemetries, below))
    ensures forall other :: HasName(MergeNode(f, name, telemetries, below), other)
              <==> HasName(f, other) || other == name
    decreases below, 1, f
  {
    if f.Node? {
      if f.name == name {
        MergeAllUnique(f.below, below);
      } else {
        MergeNodeUnique(f.next, name, telemetries, below);
      }
    }
  }

  lemma {:induction false} MergeAllUnique(f: Forest, kids: Forest)
    requires UniqueNames(f) && UniqueNames(kids)
    ensures UniqueNames(MergeAll(f, kids))
    decreases kids, 0
  {
    if kids.Node? {
      MergeNodeUnique(f, kids.name, kids.telemetries, kids.below);
      MergeAllUnique(MergeNode(f, kids.name, kids.telemetries, kids.below), kids.next);
    }
  }

  /** A merge keeps the names of siblings apart, at every level. */
  lemma {:induction false} MergeUnique(f: Forest, path: Path, name: string, telemetries: seq<Telemetry>, below: Forest)
    requires UniqueNames(f) && UniqueNames(below)
    ensures UniqueNames(MergeAt(f, path, name, telemetries, below))
    ensures path != [] ==> forall other ::
              HasName(MergeAt(f, path, name, telemetries, below), other) <==> HasName(f, other) || other == path[0]
    decreases |path|, 1, f
  {
    if path == [] {
      MergeNodeUnique(f, name, telemetries, below);
    } else if f.End? {
      ArriveUnique(path, Node(path[0], [], End, End), name, telemetries, below);
    } else if f.name == path[0] {
      ArriveUnique(path, f, name, telemetries, below);
    } else {
      MergeUnique(f.next, path, name, telemetries, below);
    }
  }

  lemma {:induction false} ArriveUnique(path: Path, f: Forest, name: string, telemetries: seq<Telemetry>, below: Forest)
    requires path != [] && f.Node? && UniqueNames(f) && UniqueNames(below)
    ensures UniqueNames(Arrive(path, f, name, telemetries, below))
    decreases |path|, 0
  {
    if |path| > 1 {
      MergeUnique(f.below, path[1..], name, telemetries, below);
    } else if name == path[0] {
      MergeAllUnique(f.below, below);
    } else {
      MergeNodeUnique(f.below, name, telemetries, below);
    }
  }

  // ---- A whole hierarchy ----

  /** Puts a node behind the last sibling, as the root takes in a tree without a path. */
  function AppendNode(f: Forest, node: Forest): Forest {
    if f.End? then node else f.(next := AppendNode(f.next, node))
  }

  lemma {:induction false} AppendConserves(f: Forest, node: Forest)
    ensures All(AppendNode(f, node)) == All(f) + All(node)
  {
    if f.Node? {
      AppendConserves(f.next, node);
    }
  }

  lemma {:induction false} AppendNames(f: Forest, node: Forest, name: string)
    ensures HasName(AppendNode(f, node), name) <==> HasName(f, name) || HasName(node, name)
  {
    if f.Node? {
      AppendNames(f.next, node, name);
    }
  }

  /** Sibling names stay unique exactly if no sibling has the name yet. */
  lemma {:induction false} AppendUniqueIff(f: Forest, name: string, telemetries: seq<Telemetry>, below: Forest)
    ensures UniqueNames(AppendNode(f, Node(name, telemetries, below, End)))
       <==> UniqueNames(f) && UniqueNames(below) && !HasName(f, name)
  {
    if f.Node? {
      AppendUniqueIff(f.next, name, telemetries, below);
      AppendNames(f.next, Node(name, telemetries, below, End), f.name);
    }
  }

  lemma {:induction false} AppendFound(f: Forest, name: string, telemetries: seq<Telemetry>, below: Forest, q: Path)
    requires !HasName(f, name)
    ensures At(AppendNode(f, Node(name, telemetries, below, End)), q)
              == At(f, q) + At(Node(name, telemetries, below, End), q)
  {
    if q != [] && f.Node? {
      AppendFound(f.next, name, telemetries, below, q);
      if q[0] == name {
        NotNamed(f, q);
      }
    }
  }

  /** How a tree gets into the hierarchy: merged at a path, or as a root of its own if its device has none. */
  datatype Placing = Placing(path: Path, asRoot: bool, name: string, telemetries: seq<Telemetry>, below: Forest)

  function Taken(f: Forest, p: Placing): Forest {
    if p.asRoot then AppendNode(f, Node(p.name, p.telemetries, p.below, End))
    else MergeAt(f, p.path, p.name, p.telemetries, p.below)
  }

  function Build(placings: seq<Placing>): Forest {
    if placings == [] then End else Taken(Build(placings[..|placings| - 1]), placings[|placings| - 1])
  }

  /** All that the trees bring along. */
  function Brought(placings: seq<Placing>): multiset<Telemetry> {
    if placings == [] then multiset{}
    else
      var p := placings[|placings| - 1];
      Brought(placings[..|placings| - 1]) + multiset(p.telemetries) + All(p.below)
  }

  /** However many trees are taken in, none of their telemetries is lost or doubled. */
  lemma {:induction false} BuildConserves(placings: seq<Placing>)
    ensures All(Build(placings)) == Brought(placings)
  {
    if placings != [] {
      var init, p := placings[..|placings| - 1], placings[|placings| - 1];
      BuildConserves(init);
      if p.asRoot {
        AppendConserves(Build(init), Node(p.name, p.telemetries, p.below, End));
        assert All(End) == multiset{};
      } else {
        MergeConserves(Build(init), p.path, p.name, p.telemetries, p.below);
      }
    }
  }

  /** Every tree has unique names, and no root bears the name of a root taken in before it. */
  predicate NewRoots(placings: seq<Placing>) {
    placings != [] ==>
      var init, p := placings[..|placings| - 1], placings[|placings| - 1];
      NewRoots(init) && UniqueNames(p.below) && (p.asRoot ==> !HasName(Build(init), p.name))
  }

  /** What the trees have at `q`, in the order they were taken in. */
  function BroughtTo(placings: seq<Placing>, q: Path): seq<Telemetry> {
    if placings == [] then []
    else
      var p := placings[|placings| - 1];
      BroughtTo(placings[..|placings| - 1], q)
          + Placed(if p.asRoot then [] else p.path, p.name, p.telemetries, p.below, q)
  }

  /** Then all names are unique, and every path shows what the trees have there. */
  lemma {:induction false} BuildFinds(placings: seq<Placing>, q: Path)
    requires NewRoots(placings)
    ensures UniqueNames(Build(placings))
    ensures At(Build(placings), q) == BroughtTo(placings, q)
  {
    if placings != [] {
      var init, p := placings[..|placings| - 1], placings[|placings| - 1];
      BuildFinds(init, q);
      if p.asRoot {
        AppendUniqueIff(Build(init), p.name, p.telemetries, p.below);
        AppendFound(Build(init), p.name, p.telemetries, p.below, q);
        PlacedHere([p.name], [], p.name, p.telemetries, p.below, q);
      } else {
        MergeUnique(Build(init), p.path, p.name, p.telemetries, p.below);
        MergeFound(Build(init), p.path, p.name, p.telemetries, p.below, q);
      }
    }
  }
}
