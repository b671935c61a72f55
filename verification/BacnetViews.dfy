/** The depth-first walk over a device's Structured Views, whose subordinate lists may form cycles. */
module BacnetViews {
  import opened Ordering

  const DEVICE := 8
  const STRUCTURED_VIEW := 29

  /** A BACnet object identifier: 10 bits of type, 22 bits of instance. */
  type ObjectType = x: int | 0 <= x < 1024
  type Instance = x: int | 0 <= x < 4194304
  datatype ObjectId = ObjectId(kind: ObjectType, instance: Instance) {
    predicate IsView() { kind == STRUCTURED_VIEW }
    /** Everything but views and devices becomes a leaf. */
    predicate IsPoint() { kind != STRUCTURED_VIEW && kind != DEVICE }
  }

  /** What each view answers when asked for its subordinate list. */
  type Subordinates = ObjectId -> seq<ObjectId>

  class DezikoNode {
    const objectId: ObjectId
    const isView: bool
    var children: seq<DezikoNode>

    constructor (id: ObjectId, view: bool)
      ensures objectId == id && isView == view && children == []
    {
      objectId, isView, children := id, view, [];
    }
  }

  class VisitedSet {
    var ids: set<ObjectId>

    constructor ()
      ensures ids == {}
    {
      ids := {};
    }
  }

  // ---- Reachability ----

  ghost predicate IsPath(subs: Subordinates, path: seq<ObjectId>) {
    && path != []
    && (forall i :: 0 <= i < |path| ==> path[i].kind == 29)
    && forall i :: 0 < i < |path| ==> path[i] in subs(path[i - 1])
  }

  ghost predicate Reachable(subs: Subordinates, from: ObjectId, to: ObjectId) {
    exists path :: IsPath(subs, path) && path[0] == from && path[|path| - 1] == to
  }

  lemma ReachesItself(subs: Subordinates, view: ObjectId)
    requires view.IsView()
    ensures Reachable(subs, view, view)
  {
    assert IsPath(subs, [view]);
  }

  lemma ReachableThrough(subs: Subordinates, view: ObjectId, child: ObjectId, to: ObjectId)
    requires view.IsView() && child in subs(view) && Reachable(subs, child, to)
    ensures Reachable(subs, view, to)
  {
    var path :| IsPath(subs, path) && path[0] == child && path[|path| - 1] == to;
    var longer := [view] + path;
    assert IsPath(subs, longer);
    assert longer[|longer| - 1] == to;
  }

  /** No subordinate view of a member is missing. */
  ghost predicate Closed(subs: Subordinates, members: set<ObjectId>, seen: set<ObjectId>) {
    forall v, s :: v in members && s in subs(v) && s.IsView() ==> s in seen
  }

  lemma {:induction false} PathStaysInClosed(subs: Subordinates, seen: set<ObjectId>, path: seq<ObjectId>)
    requires IsPath(subs, path) && path[0] in seen && Closed(subs, seen, seen)
    ensures path[|path| - 1] in seen
  {
    if |path| > 1 {
      var init := path[..|path| - 1];
      assert IsPath(subs, init);
      PathStaysInClosed(subs, seen, init);
    }
  }

  lemma ClosedHoldsReachable(subs: Subordinates, seen: set<ObjectId>, from: ObjectId, to: ObjectId)
    requires from in seen && Closed(subs, seen, seen) && Reachable(subs, from, to)
    ensures to in seen
  {
    var path :| IsPath(subs, path) && path[0] == from && path[|path| - 1] == to;
    PathStaysInClosed(subs, seen, path);
  }

  // ---- The shape of what is built ----

  /** Sibling nodes, each with the forest below it. */
  datatype Forest = Empty | Forest(before: Forest, node: DezikoNode, below: Forest)

  ghost function Heads(f: Forest): seq<DezikoNode> {
    if f.Empty? then [] else Heads(f.before) + [f.node]
  }

  ghost function HeadIds(f: Forest): seq<ObjectId> {
    if f.Empty? then [] else HeadIds(f.before) + [f.node.objectId]
  }

  ghost function Nodes(f: Forest): set<DezikoNode> {
    if f.Empty? then {} else Nodes(f.before) + {f.node} + Nodes(f.below)
  }

  /** The nodes on the heap have exactly this shape. */
  ghost predicate Built(f: Forest)
    reads Nodes(f)
  {
    f.Empty? || (Built(f.before) && f.node.children == Heads(f.below) && Built(f.below))
  }

  /** The views, each before the views below it. */
  ghost function ViewIds(f: Forest): seq<ObjectId> {
    if f.Empty? then []
    else ViewIds(f.before) + (if f.node.isView then [f.node.objectId] else []) + ViewIds(f.below)
  }

  /** `listed` is `subs` without its devices and without some of its views. */
  ghost predicate Follows(listed: seq<ObjectId>, subs: seq<ObjectId>) {
    if subs == [] then listed == []
    else
      var init, last := subs[..|subs| - 1], subs[|subs| - 1];
      || ((last.kind == 8 || last.kind == 29) && Follows(listed, init))
      || (last.kind != 8 && listed != [] && listed[|listed| - 1] == last && Follows(listed[..|listed| - 1], init))
  }

  /** Every view lists its subordinates, and a leaf has nothing below it. */
  ghost predicate FollowsDevice(f: Forest, subs: Subordinates) {
    f.Empty? || (
      && FollowsDevice(f.before, subs) && FollowsDevice(f.below, subs)
      && f.node.isView == (f.node.objectId.kind == 29)
      && (if f.node.isView then Follows(HeadIds(f.below), subs(f.node.objectId)) else f.below.Empty?))
  }

  function Points(ids: seq<ObjectId>): seq<ObjectId> {
    if ids == [] then []
    else Points(ids[..|ids| - 1]) + if ids[|ids| - 1].IsPoint() then [ids[|ids| - 1]] else []
  }

  /** All the data points of a list are kept, in order and as often as they occur. */
  lemma {:induction false} FollowsKeepsPoints(listed: seq<ObjectId>, subs: seq<ObjectId>)
    requires Follows(listed, subs)
    ensures Points(listed) == Points(subs)
    ensures forall id :: id in listed ==> id in subs && id.kind != DEVICE
  {
    if subs != [] {
      var init, last := subs[..|subs| - 1], subs[|subs| - 1];
      if !last.IsPoint() && Follows(listed, init) {
        FollowsKeepsPoints(listed, init);
      } else {
        FollowsKeepsPoints(listed[..|listed| - 1], init);
        assert listed == listed[..|listed| - 1] + [last];
      }
    }
  }

  lemma FollowsMore(listed: seq<ObjectId>, subs: seq<ObjectId>, id: ObjectId)
    requires Follows(listed, subs)
    ensures !id.IsPoint() ==> Follows(listed, subs + [id])
    ensures id.kind != DEVICE ==> Follows(listed + [id], subs + [id])
  {
    assert (subs + [id])[..|subs|] == subs;
    assert (listed + [id])[..|listed|] == listed;
  }

  /** Some node of the forest is the view `id`, and lists `listed`. */
  ghost predicate Shows(f: Forest, id: ObjectId, listed: seq<ObjectId>) {
    !f.Empty? && (
      || (f.node.isView && f.node.objectId == id && HeadIds(f.below) == listed)
      || Shows(f.before, id, listed) || Shows(f.below, id, listed))
  }

  /** Wherever a view stands, the data points under it are those of its subordinate list. */
  lemma {:induction false} ShownPoints(f: Forest, subs: Subordinates, id: ObjectId, listed: seq<ObjectId>)
    requires FollowsDevice(f, subs) && Shows(f, id, listed)
    ensures Points(listed) == Points(subs(id)) && id in ViewIds(f)
  {
    if f.node.isView && f.node.objectId == id && HeadIds(f.below) == listed {
      FollowsKeepsPoints(listed, subs(id));
    } else if Shows(f.before, id, listed) {
      ShownPoints(f.before, subs, id, listed);
    } else {
      ShownPoints(f.below, subs, id, listed);
    }
  }

  // ---- The walk ----

  ghost function AllViews(): set<ObjectId> {
    set n: Instance | 0 <= n < 4194304 :: ObjectId(STRUCTURED_VIEW, n)
  }

  ghost function Ids(f: Forest): set<ObjectId> {
    set id | id in ViewIds(f)
  }

  /** The walk has added exactly these views, none of them seen before. */
  ghost predicate Grown(f: Forest, before: set<ObjectId>, after: set<ObjectId>, subs: Subordinates) {
    && Distinct(ViewIds(f))
    && Ids(f) !! before
    && after == before + Ids(f)
    && Closed(subs, Ids(f), after)
    && FollowsDevice(f, subs)
  }

  lemma DistinctAppend<T>(s: seq<T>, t: seq<T>)
    requires Distinct(s) && Distinct(t) && forall x :: x in t ==> x !in s
    ensures Distinct(s + t)
  {
    var all := s + t;
    forall i, j | 0 <= i < j < |all| ensures all[i] != all[j] {
      assert i < |s| ==> all[i] in s;
      assert j >= |s| ==> all[j] == t[j - |s|] && all[j] in t;
    }
  }

  lemma SiblingViews(kids: Forest, child: Forest)
    requires child.Forest? && child.before == Empty
    ensures ViewIds(Forest(kids, child.node, child.below)) == ViewIds(kids) + ViewIds(child)
  {
    var own := if child.node.isView then [child.node.objectId] else [];
    assert ViewIds(child) == [] + own + ViewIds(child.below);
    Regroup(ViewIds(kids), own, ViewIds(child.below));
  }

  lemma Regroup<T>(a: seq<T>, b: seq<T>, c: seq<T>)
    ensures a + b + c == a + ([] + b + c)
  {
  }

  /** A child tree grown after the earlier siblings. */
  lemma GrownSibling(kids: Forest, child: Forest, before: set<ObjectId>, between: set<ObjectId>, after: set<ObjectId>,
                     subs: Subordinates)
    requires Grown(kids, before, between, subs) && Grown(child, between, after, subs)
    requires child.Forest? && child.before == Empty
    ensures Grown(Forest(kids, child.node, child.below), before, after, subs)
    ensures ViewIds(Forest(kids, child.node, child.below)) == ViewIds(kids) + ViewIds(child)
  {
    var all := Forest(kids, child.node, child.below);
    SiblingViews(kids, child);
    assert forall x :: x in ViewIds(child) ==> x in Ids(child) && x !in between;
    assert forall x :: x in ViewIds(kids) ==> x in Ids(kids) && x in between;
    DistinctAppend(ViewIds(kids), ViewIds(child));
    assert Ids(all) == Ids(kids) + Ids(child);
  }

  lemma GrownLeaf(kids: Forest, leaf: DezikoNode, before: set<ObjectId>, after: set<ObjectId>, subs: Subordinates)
    requires Grown(kids, before, after, subs) && !leaf.isView && !leaf.objectId.IsView()
    ensures Grown(Forest(kids, leaf, Empty), before, after, subs)
    ensures ViewIds(Forest(kids, leaf, Empty)) == ViewIds(kids)
  {
    assert ViewIds(Forest(kids, leaf, Empty)) == ViewIds(kids) + [] + [];
    assert Ids(Forest(kids, leaf, Empty)) == Ids(kids);
  }

  /** The view above a finished list of children. */
  lemma GrownView(view: DezikoNode, kids: Forest, before: set<ObjectId>, after: set<ObjectId>, subs: Subordinates)
    requires view.isView && view.objectId.IsView() && view.objectId !in before
    requires Grown(kids, before + {view.objectId}, after, subs)
    requires Follows(HeadIds(kids), subs(view.objectId))
    requires forall s :: s in subs(view.objectId) && s.IsView() ==> s in after
    ensures Grown(Forest(Empty, view, kids), before, after, subs)
  {
    var id, all := view.objectId, Forest(Empty, view, kids);
    assert ViewIds(all) == [] + [id] + ViewIds(kids);
    DistinctAppend([id], ViewIds(kids));
    assert Ids(all) == {id} + Ids(kids);
  }

  // ---- Depth first ----

  /**
   * `f` is what a depth-first walk along the list makes: a view that was seen before, or is in what precedes it here,
   * is left out; any other view is followed by everything below it before the walk goes on; points stay, devices do
   * not.
   */
  ghost predicate Explored(f: Forest, list: seq<ObjectId>, seen: set<ObjectId>, subs: Subordinates)
    decreases f, |list|
  {
    if list == [] then f.Empty?
    else
      var init, last := list[..|list| - 1], list[|list| - 1];
      if last.kind == 29 then
        || (Explored(f, init, seen, subs) && last in seen + Ids(f))
        || (&& f.Forest? && f.node.isView && f.node.objectId == last
            && Explored(f.before, init, seen, subs) && last !in seen + Ids(f.before)
            && Explored(f.below, subs(last), seen + Ids(f.before) + {last}, subs))
      else if last.kind == 8 then Explored(f, init, seen, subs)
      else
        && f.Forest? && !f.node.isView && f.node.objectId == last && f.below.Empty?
        && Explored(f.before, init, seen, subs)
  }

  lemma ExploredNext(f: Forest, list: seq<ObjectId>, id: ObjectId, seen: set<ObjectId>, subs: Subordinates)
    requires Explored(f, list, seen, subs)
    ensures id.kind == 8 || (id.kind == 29 && id in seen + Ids(f)) ==> Explored(f, list + [id], seen, subs)
    ensures forall node: DezikoNode :: id.IsPoint() && !node.isView && node.objectId == id ==>
      Explored(Forest(f, node, Empty), list + [id], seen, subs)
  {
    assert (list + [id])[..|list|] == list;
  }

  lemma ExploredView(f: Forest, list: seq<ObjectId>, node: DezikoNode, below: Forest, seen: set<ObjectId>,
                     subs: Subordinates)
    requires Explored(f, list, seen, subs)
    requires node.isView && node.objectId.kind == 29 && node.objectId !in seen + Ids(f)
    requires Explored(below, subs(node.objectId), seen + Ids(f) + {node.objectId}, subs)
    ensures Explored(Forest(f, node, below), list + [node.objectId], seen, subs)
  {
    assert (list + [node.objectId])[..|list|] == list;
  }

  /** The same ids in the same places. */
  ghost predicate SameTree(f: Forest, g: Forest) {
    if f.Empty? then g.Empty?
    else
      && g.Forest? && f.node.objectId == g.node.objectId && f.node.isView == g.node.isView
      && SameTree(f.before, g.before) && SameTree(f.below, g.below)
  }

  lemma {:induction false} SameViews(f: Forest, g: Forest)
    requires SameTree(f, g)
    ensures ViewIds(f) == ViewIds(g) && Ids(f) == Ids(g)
  {
    if f.Forest? {
      SameViews(f.before, g.before);
      SameViews(f.below, g.below);
    }
  }

  /** There is only one depth-first tree. */
  lemma {:induction false} ExploredIsUnique(f: Forest, g: Forest, list: seq<ObjectId>, seen: set<ObjectId>,
                                            subs: Subordinates)
    requires Explored(f, list, seen, subs) && Explored(g, list, seen, subs)
    ensures SameTree(f, g)
    decreases f, |list|
  {
    if list != [] {
      var init, last := list[..|list| - 1], list[|list| - 1];
      if last.kind == 29 {
        if Explored(f, init, seen, subs) && last in seen + Ids(f) {
          SkippedIsUnique(f, g, list, seen, subs);
        } else if Explored(g, init, seen, subs) && last in seen + Ids(g) {
          ExploredIsUnique(f.before, g, init, seen, subs);
          SameViews(f.before, g);
        } else {
          ExploredIsUnique(f.before, g.before, init, seen, subs);
          SameViews(f.before, g.before);
          ExploredIsUnique(f.below, g.below, subs(last), seen + Ids(f.before) + {last}, subs);
        }
      } else if last.kind == 8 {
        ExploredIsUnique(f, g, init, seen, subs);
      } else {
        ExploredIsUnique(f.before, g.before, init, seen, subs);
      }
    }
  }

  lemma {:induction false} SkippedIsUnique(f: Forest, g: Forest, list: seq<ObjectId>, seen: set<ObjectId>,
                                           subs: Subordinates)
    requires list != [] && list[|list| - 1].kind == 29
    requires Explored(f, list[..|list| - 1], seen, subs) && list[|list| - 1] in seen + Ids(f)
    requires Explored(g, list, seen, subs)
    ensures SameTree(f, g)
    decreases f, |list|, 0
  {
    var init, last := list[..|list| - 1], list[|list| - 1];
    if Explored(g, init, seen, subs) && last in seen + Ids(g) {
      ExploredIsUnique(f, g, init, seen, subs);
    } else {
      ExploredIsUnique(f, g.before, init, seen, subs);
      SameViews(f, g.before);
    }
  }

  ghost predicate AllReachable(subs: Subordinates, from: ObjectId, ids: seq<ObjectId>) {
    forall v :: v in ids ==> Reachable(subs, from, v)
  }

  lemma AllReachableThrough(subs: Subordinates, view: ObjectId, child: ObjectId, ids: seq<ObjectId>,
                            more: seq<ObjectId>)
    requires view.IsView() && child in subs(view)
    requires AllReachable(subs, view, ids) && AllReachable(subs, child, more)
    ensures AllReachable(subs, view, ids + more)
  {
    forall v | v in more ensures Reachable(subs, view, v) {
      ReachableThrough(subs, view, child, v);
    }
  }

  /** What the walk knows below `view` once the subordinates `done` are handled. */
  ghost predicate Walked(kids: Forest, view: ObjectId, done: seq<ObjectId>, before: set<ObjectId>, seen: set<ObjectId>,
                         subs: Subordinates) {
    && Grown(kids, before, seen, subs)
    && Follows(HeadIds(kids), done)
    && Explored(kids, done, before, subs)
    && AllReachable(subs, view, ViewIds(kids))
    && forall s :: s in done && s.IsView() ==> s in seen
  }

  ghost predicate IsSubtree(f: Forest, node: DezikoNode?) {
    if node == null then f.Empty? else f.Forest? && f.before.Empty? && f.node == node
  }

  /** What the walk of one view makes: nothing if it was visited before, and otherwise the tree below it. */
  ghost predicate WalkedView(child: Forest, id: ObjectId, between: set<ObjectId>, after: set<ObjectId>,
                             subs: Subordinates) {
    && Grown(child, between, after, subs) && AllReachable(subs, id, ViewIds(child))
    && id in after && (child.Empty? <==> id in between)
    && (child.Forest? ==>
          child.before.Empty? && child.node.objectId == id && Explored(child.below, subs(id), between + {id}, subs))
  }

  lemma WalkedSibling(kids: Forest, child: Forest, view: ObjectId, done: seq<ObjectId>, id: ObjectId,
                      before: set<ObjectId>, between: set<ObjectId>, after: set<ObjectId>, subs: Subordinates)
    requires Walked(kids, view, done, before, between, subs)
    requires view.IsView() && id.IsView() && id in subs(view) && WalkedView(child, id, between, after, subs)
    ensures Walked(if child.Empty? then kids else Forest(kids, child.node, child.below), view, done + [id],
                   before, after, subs)
  {
    FollowsMore(HeadIds(kids), done, id);
    ExploredNext(kids, done, id, before, subs);
    if child.Forest? {
      ExploredView(kids, done, child.node, child.below, before, subs);
      GrownSibling(kids, child, before, between, after, subs);
      AllReachableThrough(subs, view, id, ViewIds(kids), ViewIds(child));
    } else {
      assert Ids(child) == {};
      assert after == between;
    }
  }

  lemma WalkedLeaf(kids: Forest, leaf: DezikoNode, view: ObjectId, done: seq<ObjectId>,
                   before: set<ObjectId>, seen: set<ObjectId>, subs: Subordinates)
    requires Walked(kids, view, done, before, seen, subs)
    requires !leaf.isView && leaf.objectId.IsPoint()
    ensures Walked(Forest(kids, leaf, Empty), view, done + [leaf.objectId], before, seen, subs)
  {
    FollowsMore(HeadIds(kids), done, leaf.objectId);
    ExploredNext(kids, done, leaf.objectId, before, subs);
    GrownLeaf(kids, leaf, before, seen, subs);
  }

  lemma WalkedDevice(kids: Forest, view: ObjectId, done: seq<ObjectId>, id: ObjectId,
                     before: set<ObjectId>, seen: set<ObjectId>, subs: Subordinates)
    requires Walked(kids, view, done, before, seen, subs) && id.kind == DEVICE
    ensures Walked(kids, view, done + [id], before, seen, subs)
  {
    FollowsMore(HeadIds(kids), done, id);
    ExploredNext(kids, done, id, before, subs);
  }

  /** Puts `child`, with what is below it, behind the children of `found`. */
  method Attach(found: DezikoNode, child: DezikoNode, ghost kids: Forest, ghost below: Forest)
    returns (ghost all: Forest)
    requires found !in Nodes(kids) && found != child && found !in Nodes(below)
    requires Built(kids) && found.children == Heads(kids) && Built(below) && child.children == Heads(below)
    modifies found`children
    ensures all == Forest(kids, child, below)
    ensures found !in Nodes(all) && Built(all) && found.children == Heads(all)
  {
    found.children := found.children + [child];
    all := Forest(kids, child, below);
  }

  /** Handles one subordinate of `found`; `nodes` are the nodes below it so far. */
  method WalkChild(found: DezikoNode, ghost kids: Forest, ghost nodes: set<DezikoNode>, ghost done: seq<ObjectId>,
                   ghost before: set<ObjectId>, childId: ObjectId, visited: VisitedSet, subs: Subordinates)
    returns (ghost all: Forest, ghost more: set<DezikoNode>)
    requires found.isView && found.objectId.IsView() && childId in subs(found.objectId)
    requires visited.ids <= AllViews()
    requires nodes == Nodes(kids) && found !in nodes && Built(kids) && found.children == Heads(kids)
    requires Walked(kids, found.objectId, done, before, visited.ids, subs)
    modifies visited, found`children
    ensures old(visited.ids) <= visited.ids <= AllViews()
    ensures more == Nodes(all) && found !in more && Built(all) && found.children == Heads(all)
    ensures fresh(more - nodes)
    ensures Walked(all, found.objectId, done + [childId], before, visited.ids, subs)
    decreases AllViews() - visited.ids, 2
  {
    all, more := kids, nodes;
    if childId.IsView() {
      all, more := WalkSubview(found, kids, nodes, done, before, childId, visited, subs);
    } else if childId.kind != DEVICE {
      var leaf := new DezikoNode(childId, false);
      WalkedLeaf(kids, leaf, found.objectId, done, before, visited.ids, subs);
      all := Attach(found, leaf, kids, Empty);
      more := nodes + {leaf};
    } else {
      WalkedDevice(kids, found.objectId, done, childId, before, visited.ids, subs);
    }
  }

  /** A sub-folder: walked unless it has been visited. */
  method WalkSubview(found: DezikoNode, ghost kids: Forest, ghost nodes: set<DezikoNode>, ghost done: seq<ObjectId>,
                     ghost before: set<ObjectId>, childId: ObjectId, visited: VisitedSet, subs: Subordinates)
    returns (ghost all: Forest, ghost more: set<DezikoNode>)
    requires found.isView && found.objectId.IsView() && childId in subs(found.objectId) && childId.IsView()
    requires visited.ids <= AllViews()
    requires nodes == Nodes(kids) && found !in nodes && Built(kids) && found.children == Heads(kids)
    requires Walked(kids, found.objectId, done, before, visited.ids, subs)
    modifies visited, found`children
    ensures old(visited.ids) <= visited.ids <= AllViews()
    ensures more == Nodes(all) && found !in more && Built(all) && found.children == Heads(all)
    ensures fresh(more - nodes)
    ensures Walked(all, found.objectId, done + [childId], before, visited.ids, subs)
    decreases AllViews() - visited.ids, 1
  {
    var child, grown, below := WalkView(childId, visited, subs);
    WalkedSibling(kids, grown, found.objectId, done, childId, before, old(visited.ids), visited.ids, subs);
    all := AttachSubtree(found, child, kids, grown);
    more := nodes + below;
  }

  /** A visited view leaves nothing to attach. */
  method AttachSubtree(found: DezikoNode, child: DezikoNode?, ghost kids: Forest, ghost grown: Forest)
    returns (ghost all: Forest)
    requires found !in Nodes(kids) && found !in Nodes(grown) && IsSubtree(grown, child)
    requires Built(kids) && found.children == Heads(kids) && Built(grown)
    modifies found`children
    ensures all == if grown.Empty? then kids else Forest(kids, grown.node, grown.below)
    ensures Nodes(all) == Nodes(kids) + Nodes(grown) && Built(all) && found.children == Heads(all)
  {
    all := kids;
    if child != null {
      SubtreeNodes(grown, child);
      all := Attach(found, child, kids, grown.below);
    }
  }

  lemma SubtreeNodes(f: Forest, node: DezikoNode)
    requires IsSubtree(f, node) && Built(f)
    ensures Nodes(f) == Nodes(f.below) + {node}
    ensures Built(f.below) && node.children == Heads(f.below)
  {
  }

  /** Builds the tree under a view not visited before; `nodes` are its nodes. */
  method WalkView(viewId: ObjectId, visited: VisitedSet, subs: Subordinates)
    returns (node: DezikoNode?, ghost grown: Forest, ghost nodes: set<DezikoNode>)
    requires viewId.IsView() && visited.ids <= AllViews()
    modifies visited
    ensures visited.ids <= AllViews() && viewId in visited.ids
    ensures node == null <==> viewId in old(visited.ids)
    ensures IsSubtree(grown, node) && (node != null ==> node.objectId == viewId)
    ensures nodes == Nodes(grown) && Built(grown) && fresh(nodes)
    ensures WalkedView(grown, viewId, old(visited.ids), visited.ids, subs)
    decreases AllViews() - visited.ids, 0
  {
    if viewId in visited.ids {
      return null, Empty, {};
    }
    assert viewId in AllViews();
    visited.ids := visited.ids + {viewId};
    ghost var before := visited.ids;
    var found := new DezikoNode(viewId, true);
    var subordinates := subs(viewId);
    ghost var kids, below := Empty, {};
    for i := 0 to |subordinates|
      invariant before <= visited.ids <= AllViews()
      invariant below == Nodes(kids) && found !in below && fresh(below)
      invariant Built(kids) && found.children == Heads(kids)
      invariant Walked(kids, viewId, subordinates[..i], before, visited.ids, subs)
    {
      assert subordinates[..i + 1] == subordinates[..i] + [subordinates[i]];
      kids, below := WalkChild(found, kids, below, subordinates[..i], before, subordinates[i], visited, subs);
    }
    assert subordinates[..|subordinates|] == subordinates;
    GrownView(found, kids, old(visited.ids), visited.ids, subs);
    ReachesItself(subs, viewId);
    node, grown, nodes := found, Forest(Empty, found, kids), {found} + below;
  }

  /** Only views are walked from the top. */
  ghost function Views(ids: seq<ObjectId>): seq<ObjectId> {
    if ids == [] then []
    else Views(ids[..|ids| - 1]) + if ids[|ids| - 1].kind == 29 then [ids[|ids| - 1]] else []
  }

  lemma ViewsNext(ids: seq<ObjectId>, id: ObjectId)
    ensures Views(ids + [id]) == if id.kind == 29 then Views(ids) + [id] else Views(ids)
  {
    assert (ids + [id])[..|ids|] == ids;
  }

  ghost predicate ReachableFromAny(subs: Subordinates, tops: seq<ObjectId>, to: ObjectId) {
    exists top :: top in tops && Reachable(subs, top, to)
  }

  /** What is known of the roots once the top-level entries `done` are handled. */
  ghost predicate Rooted(roots: Forest, done: seq<ObjectId>, seen: set<ObjectId>, subs: Subordinates) {
    && Grown(roots, {}, seen, subs)
    && Explored(roots, Views(done), {}, subs)
    && (forall v :: v in ViewIds(roots) ==> ReachableFromAny(subs, done, v))
    && forall top :: top in done && top.IsView() ==> top in seen
  }

  lemma RootedSibling(roots: Forest, child: Forest, done: seq<ObjectId>, id: ObjectId,
                      between: set<ObjectId>, after: set<ObjectId>, subs: Subordinates)
    requires Rooted(roots, done, between, subs)
    requires id.IsView() && WalkedView(child, id, between, after, subs)
    ensures Rooted(if child.Empty? then roots else Forest(roots, child.node, child.below), done + [id], after, subs)
  {
    forall v | v in ViewIds(roots) ensures ReachableFromAny(subs, done + [id], v) {
      var top :| top in done && Reachable(subs, top, v);
      assert top in done + [id];
    }
    forall v | v in ViewIds(child) ensures ReachableFromAny(subs, done + [id], v) {
      assert id in done + [id];
    }
    ViewsNext(done, id);
    ExploredNext(roots, Views(done), id, {}, subs);
    if child.Forest? {
      ExploredView(roots, Views(done), child.node, child.below, {}, subs);
      GrownSibling(roots, child, {}, between, after, subs);
    } else {
      assert Ids(child) == {};
      assert after == between;
    }
  }

  lemma RootedSkip(roots: Forest, done: seq<ObjectId>, id: ObjectId, seen: set<ObjectId>, subs: Subordinates)
    requires Rooted(roots, done, seen, subs) && !id.IsView()
    ensures Rooted(roots, done + [id], seen, subs)
  {
    ViewsNext(done, id);
    forall v | v in ViewIds(roots) ensures ReachableFromAny(subs, done + [id], v) {
      var top :| top in done && Reachable(subs, top, v);
      assert top in done + [id];
    }
  }

  /** When every entry is handled, the views in the tree are exactly the reachable ones. */
  lemma RootedIsExact(roots: Forest, tops: seq<ObjectId>, seen: set<ObjectId>, subs: Subordinates, view: ObjectId)
    requires Rooted(roots, tops, seen, subs)
    ensures view in ViewIds(roots) <==> ReachableFromAny(subs, tops, view)
  {
    if ReachableFromAny(subs, tops, view) {
      var top :| top in tops && Reachable(subs, top, view);
      var path :| IsPath(subs, path) && path[0] == top && path[|path| - 1] == view;
      assert Ids(roots) == seen;
      ClosedHoldsReachable(subs, seen, top, view);
    }
  }

  /** A visited view adds no root. */
  method AddRoot(roots: seq<DezikoNode>, node: DezikoNode?, ghost shape: Forest, ghost grown: Forest)
    returns (all: seq<DezikoNode>, ghost allShape: Forest)
    requires Built(shape) && roots == Heads(shape) && IsSubtree(grown, node) && Built(grown)
    ensures all == (if node == null then roots else roots + [node])
    ensures allShape == if grown.Empty? then shape else Forest(shape, grown.node, grown.below)
    ensures Nodes(allShape) == Nodes(shape) + Nodes(grown) && Built(allShape) && all == Heads(allShape)
  {
    all, allShape := roots, shape;
    if node != null {
      SubtreeNodes(grown, node);
      all := all + [node];
      allShape := Forest(shape, node, grown.below);
    }
  }

  /** Handles one top-level entry. */
  method WalkTop(svId: ObjectId, roots: seq<DezikoNode>, ghost shape: Forest, ghost nodes: set<DezikoNode>,
                 ghost done: seq<ObjectId>, visited: VisitedSet, subs: Subordinates)
    returns (all: seq<DezikoNode>, ghost allShape: Forest, ghost allNodes: set<DezikoNode>)
    requires visited.ids <= AllViews() && Rooted(shape, done, visited.ids, subs)
    requires nodes == Nodes(shape) && Built(shape) && roots == Heads(shape)
    modifies visited
    ensures visited.ids <= AllViews() && Rooted(allShape, done + [svId], visited.ids, subs)
    ensures allNodes == Nodes(allShape) && Built(allShape) && all == Heads(allShape)
    ensures fresh(allNodes - nodes)
    ensures all == roots
            || (svId.IsView() && exists node :: all == roots + [node] && node.isView && node.objectId == svId)
  {
    all, allShape, allNodes := roots, shape, nodes;
    if svId.IsView() {
      var node, grown, grownNodes := WalkView(svId, visited, subs);
      RootedSibling(shape, grown, done, svId, old(visited.ids), visited.ids, subs);
      all, allShape := AddRoot(roots, node, shape, grown);
      allNodes := nodes + grownNodes;
    } else {
      RootedSkip(shape, done, svId, visited.ids, subs);
    }
  }

  /** Walks the whole device. */
  method Walk(structuredObjects: seq<ObjectId>, dezikoObjects: seq<ObjectId>, subs: Subordinates)
    returns (roots: seq<DezikoNode>, ghost shape: Forest)
    ensures roots == Heads(shape) && Built(shape)
    ensures Distinct(ViewIds(shape))
    ensures structuredObjects != [] ==>
      forall v :: v in ViewIds(shape) <==> ReachableFromAny(subs, structuredObjects, v)
    ensures structuredObjects == [] ==>
      forall v :: v in ViewIds(shape) <==> ReachableFromAny(subs, dezikoObjects, v)
    ensures FollowsDevice(shape, subs)
    ensures Explored(shape, Views(if structuredObjects != [] then structuredObjects else dezikoObjects), {}, subs)
    ensures forall node :: node in roots ==>
      node.isView && node.objectId in (if structuredObjects != [] then structuredObjects else dezikoObjects)
  {
    var visited := new VisitedSet();
    var topLevelIds := structuredObjects;
    if |topLevelIds| == 0 {
      topLevelIds := dezikoObjects;
    }
    ghost var nodes := {};
    roots, shape := [], Empty;
    for i := 0 to |topLevelIds|
      invariant visited.ids <= AllViews()
      invariant nodes == Nodes(shape) && Built(shape) && roots == Heads(shape)
      invariant Rooted(shape, topLevelIds[..i], visited.ids, subs)
      invariant forall node :: node in roots ==> node.isView && node.objectId in topLevelIds
    {
      assert topLevelIds[..i + 1] == topLevelIds[..i] + [topLevelIds[i]];
      roots, shape, nodes := WalkTop(topLevelIds[i], roots, shape, nodes, topLevelIds[..i], visited, subs);
    }
    assert topLevelIds[..|topLevelIds|] == topLevelIds;
    forall v ensures v in ViewIds(shape) <==> ReachableFromAny(subs, topLevelIds, v) {
      RootedIsExact(shape, topLevelIds, visited.ids, subs, v);
    }
  }
}
