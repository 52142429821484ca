/**
 * `FindClosestHitNode` of src/Utils.h: a post-order search of a scene-graph
 * tree for the eligible node whose world translation is closest to a query
 * point, by squared distance, with 1000000 as the "nothing found" distance.
 *
 * Coordinates are integers, so squared distances are exact. The two
 * process-wide regular expressions (the node-name exclusion pattern and the
 * first-person player-node pattern) are the two predicates of `Patterns`.
 */
module HitNode {
  import opened Options

  datatype Point = Point(x: int, y: int, z: int)

  /**
   * A scene node. A child is `None` when its pointer is null or when it is
   * not itself a node (`AsNode()` is null); both are skipped by the search.
   */
  datatype Node = Node(name: string, hasCollision: bool, translate: Point, children: seq<Option<Node>>)

  /** The exclusion pattern and the player-node pattern, as full-match tests on names. */
  datatype Patterns = Patterns(excluded: string -> bool, playerNode: string -> bool)

  /** A search result: the node found (or none) and the distance reported through `a_dist`. */
  datatype Hit = Hit(node: Option<Node>, dist: int)

  /** The initial "farthest" distance, also reported when nothing is found. */
  const Sentinel: int := 1000000

  function SqDist(a: Point, b: Point): int
  {
    var dx, dy, dz := a.x - b.x, a.y - b.y, a.z - b.z;
    dx * dx + dy * dy + dz * dz
  }

  /**
   * A node can be a hit: it has a collision object or the search is in player
   * mode; its name is not excluded; and in player mode its name is a player node.
   */
  predicate Eligible(n: Node, isPlayer: bool, pats: Patterns)
  {
    (n.hasCollision || isPlayer) && !pats.excluded(n.name) && (!isPlayer || pats.playerNode(n.name))
  }

  /** The nodes of the subtree rooted at `n`, in post-order. */
  function Nodes(n: Node): seq<Node>
    decreases n, |n.children| + 1
  {
    ChildNodes(n, |n.children|) + [n]
  }

  /** The nodes of the subtrees of the first `k` children of `n`. */
  function ChildNodes(n: Node, k: nat): seq<Node>
    requires k <= |n.children|
    decreases n, k
  {
    if k == 0 then []
    else
      ChildNodes(n, k - 1) +
      match n.children[k - 1]
      case None => []
      case Some(c) => Nodes(c)
  }

  /** The result of the search from `n`. */
  function Closest(n: Node, pos: Point, isPlayer: bool, pats: Patterns): (r: Hit)
    ensures r.dist <= Sentinel
    ensures r.node.None? ==> r.dist == Sentinel
    decreases n, |n.children| + 1
  {
    var best := BestChild(n, |n.children|, pos, isPlayer, pats);
    if Eligible(n, isPlayer, pats) then
      var d := SqDist(n.translate, pos);
      if best.dist < d then best else Hit(Some(n), d)
    else if best.node.Some? then best
    else Hit(None, Sentinel)
  }

  /**
   * The best result among the first `k` children (the loop's `childNode` and
   * `childMinDist` after `k` iterations). Only a strictly smaller distance
   * replaces the current best, so a recorded hit is always below the sentinel.
   */
  function BestChild(n: Node, k: nat, pos: Point, isPlayer: bool, pats: Patterns): (r: Hit)
    requires k <= |n.children|
    ensures r.node.None? <==> r.dist == Sentinel
    ensures r.dist <= Sentinel
    decreases n, k
  {
    if k == 0 then Hit(None, Sentinel)
    else
      var prev := BestChild(n, k - 1, pos, isPlayer, pats);
      match n.children[k - 1]
      case None => prev
      case Some(c) =>
        var h := Closest(c, pos, isPlayer, pats);
        if h.dist < prev.dist then h else prev
  }

  // ---------------------------------------------------------------------
  // Properties of the search
  // ---------------------------------------------------------------------

  /** A hit is an eligible node of the subtree, reported with its own squared distance. */
  lemma {:induction false} ClosestSound(n: Node, pos: Point, isPlayer: bool, pats: Patterns)
    ensures var r := Closest(n, pos, isPlayer, pats);
      r.node.Some? ==> r.node.value in Nodes(n) && Eligible(r.node.value, isPlayer, pats) &&
                       r.dist == SqDist(r.node.value.translate, pos)
    decreases n, |n.children| + 1
  {
    BestChildSound(n, |n.children|, pos, isPlayer, pats);
  }

  lemma {:induction false} BestChildSound(n: Node, k: nat, pos: Point, isPlayer: bool, pats: Patterns)
    requires k <= |n.children|
    ensures var r := BestChild(n, k, pos, isPlayer, pats);
      r.node.Some? ==> r.node.value in ChildNodes(n, k) && Eligible(r.node.value, isPlayer, pats) &&
                       r.dist == SqDist(r.node.value.translate, pos)
    decreases n, k
  {
    if k > 0 {
      BestChildSound(n, k - 1, pos, isPlayer, pats);
      match n.children[k - 1]
      case None =>
      case Some(c) => ClosestSound(c, pos, isPlayer, pats);
    }
  }

  /** No eligible node of the subtree is strictly closer than the reported distance. */
  lemma {:induction false} ClosestMinimal(n: Node, pos: Point, isPlayer: bool, pats: Patterns, m: Node)
    requires m in Nodes(n) && Eligible(m, isPlayer, pats)
    ensures Closest(n, pos, isPlayer, pats).dist <= SqDist(m.translate, pos)
    decreases n, |n.children| + 1
  {
    if m != n {
      BestChildMinimal(n, |n.children|, pos, isPlayer, pats, m);
    }
  }

  lemma {:induction false} BestChildMinimal(n: Node, k: nat, pos: Point, isPlayer: bool, pats: Patterns, m: Node)
    requires k <= |n.children|
    requires m in ChildNodes(n, k) && Eligible(m, isPlayer, pats)
    ensures BestChild(n, k, pos, isPlayer, pats).dist <= SqDist(m.translate, pos)
    decreases n, k
  {
    if m in ChildNodes(n, k - 1) {
      BestChildMinimal(n, k - 1, pos, isPlayer, pats, m);
    } else {
      match n.children[k - 1]
      case Some(c) => ClosestMinimal(c, pos, isPlayer, pats, m);
    }
  }

  /** Whenever some eligible node lies strictly inside the sentinel distance, a node is found. */
  lemma FindsNodeWithinSentinel(n: Node, pos: Point, isPlayer: bool, pats: Patterns, m: Node)
    requires m in Nodes(n) && Eligible(m, isPlayer, pats) && SqDist(m.translate, pos) < Sentinel
    ensures Closest(n, pos, isPlayer, pats).node.Some?
  {
    ClosestMinimal(n, pos, isPlayer, pats, m);
  }

  /** With no eligible node in the subtree, the result is none with the sentinel distance. */
  lemma NoEligibleNode(n: Node, pos: Point, isPlayer: bool, pats: Patterns)
    requires forall m :: m in Nodes(n) ==> !Eligible(m, isPlayer, pats)
    ensures Closest(n, pos, isPlayer, pats) == Hit(None, Sentinel)
  {
    ClosestSound(n, pos, isPlayer, pats);
  }

  /**
   * Ties favour the node itself: an eligible node no farther than the sentinel
   * and no farther than any eligible descendant is the hit.
   */
  lemma NodeWinsTies(n: Node, pos: Point, isPlayer: bool, pats: Patterns)
    requires Eligible(n, isPlayer, pats) && SqDist(n.translate, pos) <= Sentinel
    requires forall m :: m in ChildNodes(n, |n.children|) && Eligible(m, isPlayer, pats) ==>
               SqDist(n.translate, pos) <= SqDist(m.translate, pos)
    ensures Closest(n, pos, isPlayer, pats) == Hit(Some(n), SqDist(n.translate, pos))
  {
    BestChildSound(n, |n.children|, pos, isPlayer, pats);
  }

  /**
   * An eligible node farther than the sentinel is dropped when no child
   * reports a hit: the sentinel also acts as a distance cut-off.
   */
  lemma FarNodeDropped(n: Node, pos: Point, isPlayer: bool, pats: Patterns)
    requires Eligible(n, isPlayer, pats) && SqDist(n.translate, pos) > Sentinel
    requires BestChild(n, |n.children|, pos, isPlayer, pats).node.None?
    ensures Closest(n, pos, isPlayer, pats) == Hit(None, Sentinel)
  {
  }

  /** What child `i` reports to the loop; a skipped child is never recorded, like a null result. */
  function ChildHit(n: Node, i: nat, pos: Point, isPlayer: bool, pats: Patterns): Hit
    requires i < |n.children|
  {
    match n.children[i]
    case None => Hit(None, Sentinel)
    case Some(c) => Closest(c, pos, isPlayer, pats)
  }

  /**
   * Among the first `k` children, the hit comes from child `j`, the earliest
   * one reporting the smallest distance: earlier children report strictly
   * more, later ones no less. With no hit, every child reports the sentinel
   * or more.
   */
  lemma {:induction false} BestChildIsFirstMinimum(n: Node, k: nat, pos: Point, isPlayer: bool, pats: Patterns)
      returns (j: nat)
    requires k <= |n.children|
    ensures var r := BestChild(n, k, pos, isPlayer, pats);
      r.node.None? ==> forall i :: 0 <= i < k ==> ChildHit(n, i, pos, isPlayer, pats).dist >= Sentinel
    ensures var r := BestChild(n, k, pos, isPlayer, pats);
      r.node.Some? ==>
        j < k && ChildHit(n, j, pos, isPlayer, pats) == r &&
        (forall i :: 0 <= i < j ==> ChildHit(n, i, pos, isPlayer, pats).dist > r.dist) &&
        (forall i :: j < i < k ==> ChildHit(n, i, pos, isPlayer, pats).dist >= r.dist)
    decreases k
  {
    j := 0;
    if k > 0 {
      var prev := BestChild(n, k - 1, pos, isPlayer, pats);
      var before := BestChildIsFirstMinimum(n, k - 1, pos, isPlayer, pats);
      var h := ChildHit(n, k - 1, pos, isPlayer, pats);
      if h.dist < prev.dist {
        assert BestChild(n, k, pos, isPlayer, pats) == h;
        j := k - 1;
      } else {
        assert BestChild(n, k, pos, isPlayer, pats) == prev;
        j := before;
      }
    }
  }

  // ---------------------------------------------------------------------
  // The search
  // ---------------------------------------------------------------------

  method FindClosestHitNode(root: Node, pos: Point, isPlayer: bool, pats: Patterns) returns (hit: Option<Node>, dist: int)
    ensures Hit(hit, dist) == Closest(root, pos, isPlayer, pats)
    ensures hit.None? ==> dist == Sentinel
    ensures hit.Some? ==> hit.value in Nodes(root) && Eligible(hit.value, isPlayer, pats) &&
                          dist == SqDist(hit.value.translate, pos)
    ensures forall m :: m in Nodes(root) && Eligible(m, isPlayer, pats) ==> dist <= SqDist(m.translate, pos)
    decreases root
  {
    ClosestSound(root, pos, isPlayer, pats);
    forall m | m in Nodes(root) && Eligible(m, isPlayer, pats)
      ensures Closest(root, pos, isPlayer, pats).dist <= SqDist(m.translate, pos)
    {
      ClosestMinimal(root, pos, isPlayer, pats, m);
    }
    var childMinDist := Sentinel;
    var childNode: Option<Node> := None;
    var i := 0;
    while i < |root.children|
      invariant 0 <= i <= |root.children|
      invariant Hit(childNode, childMinDist) == BestChild(root, i, pos, isPlayer, pats)
    {
      match root.children[i] {
        case None =>
        case Some(node) =>
          var childHit, childDist := FindClosestHitNode(node, pos, isPlayer, pats);
          if childDist < childMinDist {
            childMinDist := childDist;
            childNode := childHit;
          }
      }
      i := i + 1;
    }

    if root.hasCollision || isPlayer {
      if !pats.excluded(root.name) {
        if !isPlayer || pats.playerNode(root.name) {
          dist := SqDist(root.translate, pos);
          if childMinDist < dist {
            dist := childMinDist;
            return childNode, dist;
          }
          return Some(root), dist;
        }
      }
    }

    if childNode.Some? {
      dist := childMinDist;
      return childNode, dist;
    }

    dist := Sentinel;
    return None, dist;
  }
}
