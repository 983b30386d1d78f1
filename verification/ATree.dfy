/** The augmented binary search tree of samples. A node holds a key, how often it was sampled (its value), and the
    number of samples below and at it (its metadata), which is how the percentiles find their way down. */
module ATree {
  class Node {
    const key: real
    var left: Node?
    var right: Node?
    var value: int
    var metadata: int

    constructor (key: real, value: int, metadata: int)
      ensures this.key == key && this.value == value && this.metadata == metadata && left == null && right == null
    {
      this.key, this.value, this.metadata := key, value, metadata;
      left, right := null, null;
    }
  }

  /** The tree as a value: nodes, and what they hold. */
  datatype Shape = Nil | Fork(left: Shape, node: Node, key: real, value: int, count: int, right: Shape)

  ghost function Nodes(s: Shape): set<Node> {
    match s case Nil => {} case Fork(l, n, _, _, _, r) => Nodes(l) + {n} + Nodes(r)
  }

  function Root(s: Shape): Node? {
    match s case Nil => null case Fork(_, n, _, _, _, _) => n
  }

  /** No node occurs twice. */
  ghost predicate Apart(s: Shape) {
    match s
    case Nil => true
    case Fork(l, n, _, _, _, r) =>
      Apart(l) && Apart(r) && n !in Nodes(l) && n !in Nodes(r) && Nodes(l) !! Nodes(r)
  }

  /** The nodes in memory are linked and filled as the shape says. */
  ghost predicate Matches(s: Shape)
    reads Nodes(s)
  {
    match s
    case Nil => true
    case Fork(l, n, k, v, c, r) =>
      && n.key == k && n.value == v && n.metadata == c && n.left == Root(l) && n.right == Root(r)
      && Matches(l) && Matches(r)
  }

  // ---------- What a shape holds ----------

  function Count(s: Shape): int { if s.Nil? then 0 else s.count }

  /** Every node counts its samples, of which it has at least one. */
  predicate Counted(s: Shape) {
    match s
    case Nil => true
    case Fork(l, _, _, v, c, r) => v >= 1 && c == Count(l) + Count(r) + v && Counted(l) && Counted(r)
  }

  ghost function Keys(s: Shape): set<real> {
    match s case Nil => {} case Fork(l, _, k, _, _, r) => Keys(l) + {k} + Keys(r)
  }

  ghost predicate Ordered(s: Shape) {
    match s
    case Nil => true
    case Fork(l, _, k, _, _, r) =>
      && (forall x | x in Keys(l) :: x < k) && (forall x | x in Keys(r) :: k < x)
      && Ordered(l) && Ordered(r)
  }

  function Copies(k: real, n: int): seq<real> { seq(if n < 0 then 0 else n, _ => k) }

  /** All samples in increasing order. */
  function Sorted(s: Shape): seq<real> {
    match s case Nil => [] case Fork(l, _, k, v, _, r) => Sorted(l) + Copies(k, v) + Sorted(r)
  }

  function Size(s: Shape): nat {
    match s case Nil => 0 case Fork(l, _, _, _, _, r) => Size(l) + 1 + Size(r)
  }

  ghost predicate Sound(s: Shape) { Apart(s) && Counted(s) && Ordered(s) }

  lemma {:induction false} SortedLength(s: Shape)
    requires Counted(s)
    ensures |Sorted(s)| == Count(s) && (s.Fork? ==> Count(s) >= 1)
  {
    if s.Fork? {
      SortedLength(s.left);
      SortedLength(s.right);
    }
  }

  lemma {:induction false} SortedKeys(s: Shape)
    requires Counted(s)
    ensures forall i | 0 <= i < |Sorted(s)| :: Sorted(s)[i] in Keys(s)
  {
    if s.Fork? {
      SortedKeys(s.left);
      SortedKeys(s.right);
    }
  }

  /** The counts and the order make the listing sorted. */
  lemma {:induction false} SortedIsSorted(s: Shape)
    requires Counted(s) && Ordered(s)
    ensures forall i, j | 0 <= i <= j < |Sorted(s)| :: Sorted(s)[i] <= Sorted(s)[j]
  {
    if s.Fork? {
      SortedIsSorted(s.left);
      SortedIsSorted(s.right);
      SortedKeys(s.left);
      SortedKeys(s.right);
      var l, m := Sorted(s.left), Copies(s.key, s.value);
      assert forall i | 0 <= i < |l| :: Sorted(s)[i] == l[i] <= s.key;
      assert forall i | |l| + |m| <= i < |Sorted(s)| :: Sorted(s)[i] == Sorted(s.right)[i - |l| - |m|] >= s.key;
    }
  }

  // ---------- A place in the tree ----------

  /** One step of a descent: the node passed, and the side not taken. */
  datatype Frame = Frame(wentLeft: bool, node: Node, key: real, value: int, count: int, other: Shape)

  function Attach(f: Frame, s: Shape): Shape {
    if f.wentLeft then Fork(s, f.node, f.key, f.value, f.count, f.other) else Fork(f.other, f.node, f.key, f.value, f.count, s)
  }

  function Plug(path: seq<Frame>, s: Shape): Shape
    decreases |path|
  {
    if path == [] then s else Plug(path[..|path| - 1], Attach(path[|path| - 1], s))
  }

  ghost function PathNodes(path: seq<Frame>): set<Node> {
    if path == [] then {} else PathNodes(path[..|path| - 1]) + {path[|path| - 1].node} + Nodes(path[|path| - 1].other)
  }

  ghost predicate PathApart(path: seq<Frame>) {
    path != [] ==>
      var f, rest := path[|path| - 1], PathNodes(path[..|path| - 1]);
      && f.node !in rest && f.node !in Nodes(f.other) && Nodes(f.other) !! rest && Apart(f.other)
      && PathApart(path[..|path| - 1])
  }

  lemma {:induction false} PlugApart(path: seq<Frame>, s: Shape)
    ensures Nodes(Plug(path, s)) == PathNodes(path) + Nodes(s)
    ensures Apart(Plug(path, s)) <==> PathApart(path) && Apart(s) && Nodes(s) !! PathNodes(path)
    decreases |path|
  {
    if path != [] { PlugApart(path[..|path| - 1], Attach(path[|path| - 1], s)); }
  }

  /** The nodes of the path are linked and filled as it says, down to `child`. */
  ghost predicate PathMatches(path: seq<Frame>, top: Node?, child: Node?)
    reads PathNodes(path)
  {
    if path == [] then top == child
    else
      var f := path[|path| - 1];
      && f.node.key == f.key && f.node.value == f.value && f.node.metadata == f.count
      && f.node.left == (if f.wentLeft then child else Root(f.other))
      && f.node.right == (if f.wentLeft then Root(f.other) else child)
      && Matches(f.other)
      && PathMatches(path[..|path| - 1], top, f.node)
  }

  lemma {:induction false} PlugMatches(path: seq<Frame>, s: Shape, top: Node?)
    ensures top == Root(Plug(path, s)) && Matches(Plug(path, s)) <==> PathMatches(path, top, Root(s)) && Matches(s)
    decreases |path|
  {
    if path != [] { PlugMatches(path[..|path| - 1], Attach(path[|path| - 1], s), top); }
  }

  // ---------- Counting again on the way back ----------

  /** The frame's node with its count computed from its children. */
  function Recounted(f: Frame, s: Shape): Shape { Attach(f.(count := Count(s) + Count(f.other) + f.value), s) }

  function Rebuild(path: seq<Frame>, s: Shape): Shape
    decreases |path|
  {
    if path == [] then s else Rebuild(path[..|path| - 1], Recounted(path[|path| - 1], s))
  }

  ghost predicate Fits(path: seq<Frame>, key: real) {
    forall i | 0 <= i < |path| :: if path[i].wentLeft then key < path[i].key else key > path[i].key
  }

  /** Putting a subtree back whose only new key fits the path keeps the order and the counts. */
  lemma {:induction false} RebuildSound(path: seq<Frame>, was: Shape, now: Shape, key: real)
    requires Counted(Plug(path, was)) && Ordered(Plug(path, was)) && Fits(path, key)
    requires Counted(now) && Ordered(now) && Keys(now) <= Keys(was) + {key}
    ensures Counted(Rebuild(path, now)) && Ordered(Rebuild(path, now))
    ensures Keys(Rebuild(path, now)) <= Keys(Plug(path, was)) + {key}
    decreases |path|
  {
    if path != [] {
      var f, rest := path[|path| - 1], path[..|path| - 1];
      PlugParts(rest, Attach(f, was));
      RebuildSound(rest, Attach(f, was), Recounted(f, now), key);
    }
  }

  lemma {:induction false} PlugParts(path: seq<Frame>, s: Shape)
    requires Counted(Plug(path, s)) && Ordered(Plug(path, s))
    ensures Counted(s) && Ordered(s)
    decreases |path|
  {
    if path != [] { PlugParts(path[..|path| - 1], Attach(path[|path| - 1], s)); }
  }

  /** One sample more in the subtree is one sample more in the tree, and the same nodes in the same places. */
  lemma {:induction false} RebuildBag(path: seq<Frame>, was: Shape, now: Shape, key: real)
    requires multiset(Sorted(now)) == multiset(Sorted(was)) + multiset{key}
    ensures multiset(Sorted(Rebuild(path, now))) == multiset(Sorted(Plug(path, was))) + multiset{key}
    ensures Size(Rebuild(path, now)) - Size(now) == Size(Plug(path, was)) - Size(was)
    decreases |path|
  {
    if path != [] {
      var f, rest := path[|path| - 1], path[..|path| - 1];
      RebuildBag(rest, Attach(f, was), Recounted(f, now), key);
    }
  }

  // ---------- The tree object ----------

  lemma {:induction false} NoKeyBelow(path: seq<Frame>, s: Shape, key: real)
    requires Ordered(Plug(path, s)) && Counted(Plug(path, s)) && Fits(path, key)
    ensures key in Keys(Plug(path, s)) <==> key in Keys(s)
    decreases |path|
  {
    if path != [] {
      var f, rest := path[|path| - 1], path[..|path| - 1];
      PlugParts(rest, Attach(f, s));
      NoKeyBelow(rest, Attach(f, s), key);
    }
  }

  lemma FrameStep(path: seq<Frame>, f: Frame, s: Shape)
    ensures Plug(path + [f], s) == Plug(path, Attach(f, s))
  {
    assert (path + [f])[..|path|] == path;
  }

  // The recursive descriptions of the memory are unfolded one level at a time.

  /** The frame of a turn to the right or left, and the subtree below it. */
  function TurnFrame(s: Shape, right: bool): Frame
    requires s.Fork?
  {
    Frame(!right, s.node, s.key, s.value, s.count, if right then s.left else s.right)
  }

  function Below(s: Shape, right: bool): Shape
    requires s.Fork?
  {
    if right then s.right else s.left
  }

  /** One turn of a descent. */
  lemma TurnDown(path: seq<Frame>, s: Shape, top: Node?, right: bool)
    requires s.Fork? && Matches(s) && PathMatches(path, top, s.node)
    ensures var path' := path + [TurnFrame(s, right)];
      && Plug(path', Below(s, right)) == Plug(path, s)
      && PathMatches(path', top, Root(Below(s, right))) && Matches(Below(s, right))
  {
    MatchesParts(s);
    var f := TurnFrame(s, right);
    FrameStep(path, f, Below(s, right));
    assert (path + [f])[..|path|] == path;
    hide Matches; hide Plug;
  }

  lemma MatchesParts(s: Shape)
    requires s.Fork? && Matches(s)
    ensures s.node.key == s.key && s.node.value == s.value && s.node.metadata == s.count
    ensures s.node.left == Root(s.left) && s.node.right == Root(s.right) && Matches(s.left) && Matches(s.right)
  {}

  lemma MatchesWhole(s: Shape)
    requires s.Fork? && s.node.key == s.key && s.node.value == s.value && s.node.metadata == s.count
    requires s.node.left == Root(s.left) && s.node.right == Root(s.right) && Matches(s.left) && Matches(s.right)
    ensures Matches(s)
  {}

  lemma ApartParts(s: Shape)
    requires s.Fork? && Apart(s)
    ensures s.node in Nodes(s) && s.node !in Nodes(s.left) && s.node !in Nodes(s.right) && Nodes(s.left) !! Nodes(s.right)
    ensures Apart(s.left) && Apart(s.right) && Nodes(s) == Nodes(s.left) + {s.node} + Nodes(s.right)
  {}

  lemma ApartWhole(s: Shape)
    requires s.Fork? && Apart(s.left) && Apart(s.right) && s.node !in Nodes(s.left) && s.node !in Nodes(s.right)
    requires Nodes(s.left) !! Nodes(s.right)
    ensures Apart(s) && Nodes(s) == Nodes(s.left) + {s.node} + Nodes(s.right)
  {}

  ghost predicate FrameMatches(f: Frame, child: Node?)
    reads f.node, Nodes(f.other)
  {
    && f.node.key == f.key && f.node.value == f.value && f.node.metadata == f.count
    && f.node.left == (if f.wentLeft then child else Root(f.other))
    && f.node.right == (if f.wentLeft then Root(f.other) else child)
    && Matches(f.other)
  }

  lemma PathParts(path: seq<Frame>, top: Node?, child: Node?)
    requires path != [] && PathApart(path)
    ensures var f, rest := path[|path| - 1], path[..|path| - 1];
      && (PathMatches(path, top, child) <==> FrameMatches(f, child) && PathMatches(rest, top, f.node))
      && f.node !in PathNodes(rest) && f.node !in Nodes(f.other) && Nodes(f.other) !! PathNodes(rest) && Apart(f.other)
      && PathApart(rest) && PathNodes(path) == PathNodes(rest) + {f.node} + Nodes(f.other)
  {}

  lemma AtTop(top: Node?, s: Shape)
    ensures Plug([], s) == s && PathMatches([], top, top)
  {}

  lemma Bare(n: Node)
    ensures Matches(Nil) && Count(Nil) == 0 && n !in Nodes(Nil)
  {}

  lemma PathEmpty(top: Node?, child: Node?)
    ensures PathMatches([], top, child) <==> top == child
    ensures PathNodes([]) == {}
  {}

  class Tree {
    // The left child of the sentinel, the number of distinct keys, and the trees cleared so far.
    var top: Node?
    var size: int
    var cleared: seq<Node?>
    ghost var shape: Shape
    ghost var nodes: set<Node>

    ghost predicate Valid()
      reads this, nodes
    {
      nodes == Nodes(shape) && top == Root(shape) && Matches(shape) && Sound(shape) && size == Size(shape)
    }

    constructor ()
      ensures Valid() && shape == Nil && cleared == []
    {
      top, size, cleared, shape, nodes := null, 0, [], Nil, {};
    }

    /** `SubtreeCountVisitor::Visit`. */
    static method Visit(n: Node, ghost l: Shape, ghost r: Shape)
      requires n.left == Root(l) && n.right == Root(r) && Matches(l) && Matches(r)
      requires n !in Nodes(l) && n !in Nodes(r)
      modifies n
      ensures n.metadata == Count(l) + Count(r) + n.value
      ensures n.left == old(n.left) && n.right == old(n.right) && n.value == old(n.value)
    {
      var leftTotal := if n.left != null then n.left.metadata else 0;
      var rightTotal := if n.right != null then n.right.metadata else 0;
      n.metadata := leftTotal + rightTotal + n.value;
    }

    /** The node of `key`, if there is one, the node above its place, and the nodes passed on the way. */
    method FindInternal(key: real)
      returns (parent: Node?, curr: Node?, stack: seq<Node>, ghost path: seq<Frame>, ghost s: Shape)
      requires Valid()
      ensures Plug(path, s) == shape && curr == Root(s) && (curr == null || curr.key == key) && Fits(path, key)
      ensures PathMatches(path, top, curr) && Matches(s)
      ensures |stack| == |path| && forall i | 0 <= i < |path| :: stack[i] == path[i].node
      ensures parent == if path == [] then null else path[|path| - 1].node
    {
      hide Matches; hide PathMatches; hide Plug; hide Sound; hide Nodes; hide PathNodes; hide Size;
      parent, curr, stack, path, s := null, top, [], [], shape;
      AtTop(top, shape);
      while curr != null && curr.key != key
        invariant Plug(path, s) == shape && curr == Root(s) && Fits(path, key)
        invariant PathMatches(path, top, curr) && Matches(s)
        invariant |stack| == |path| && forall i | 0 <= i < |path| :: stack[i] == path[i].node
        invariant parent == if path == [] then null else path[|path| - 1].node
        decreases s
      {
        parent := curr;
        ghost var right := key > curr.key;
        MatchesParts(s);
        TurnDown(path, s, top, right);
        if key > curr.key { curr := curr.right; } else { curr := curr.left; }
        path, s := path + [TurnFrame(s, right)], Below(s, right);
        stack := stack + [parent];
      }
    }

    /** The visits on the way back up: every node passed counts its samples again. */
    method VisitAll(stack: seq<Node>, ghost path: seq<Frame>, ghost s: Shape, ghost all: set<Node>) returns (ghost whole: Shape)
      requires |stack| == |path| && forall i | 0 <= i < |path| :: stack[i] == path[i].node
      requires Matches(s) && Apart(Plug(path, s)) && PathMatches(path, top, Root(s))
      requires PathNodes(path) + Nodes(s) <= all
      modifies PathNodes(path)
      ensures whole == Rebuild(path, s) && Matches(whole) && Apart(whole) && top == Root(whole)
      ensures Nodes(whole) == PathNodes(path) + Nodes(s)
    {
      PlugApart(path, s);
      hide Matches; hide Apart; hide Nodes; hide PathMatches; hide PathNodes; hide PathApart; hide Plug;
      whole := s;
      var i := |stack|;
      assert path[..i] == path;
      while i > 0
        invariant 0 <= i <= |path|
        invariant PathApart(path[..i]) && PathMatches(path[..i], top, Root(whole))
        invariant Matches(whole) && Apart(whole) && Nodes(whole) !! PathNodes(path[..i])
        invariant PathNodes(path[..i]) + Nodes(whole) == PathNodes(path) + Nodes(s)
        invariant PathNodes(path[..i]) <= PathNodes(path)
        invariant Rebuild(path[..i], whole) == Rebuild(path, s)
      {
        i := i - 1;
        ghost var f := path[i];
        assert path[..i + 1][..i] == path[..i];
        PathParts(path[..i + 1], top, Root(whole));
        Visit(stack[i], if f.wentLeft then whole else f.other, if f.wentLeft then f.other else whole);
        MatchesWhole(Recounted(f, whole));
        ApartWhole(Recounted(f, whole));
        whole := Recounted(f, whole);
      }
      PathEmpty(top, Root(whole));
    }

    /** All nodes leave the tree at once; they are kept for the destructor. */
    method Clear()
      requires Valid()
      modifies this
      ensures Valid() && shape == Nil && size == 0 && nodes == {} && cleared == old(cleared) + [old(top)]
    {
      cleared := cleared + [top];
      top, size, shape, nodes := null, 0, Nil, {};
    }

    /** The number of samples. */
    method GetSize() returns (n: int)
      requires Valid()
      ensures n == Count(shape)
    {
      if top != null { n := top.metadata; } else { n := 0; }
    }

    /** The conversion of a percentile into a rank. */
    method RankOf(percentile: real) returns (rank: int)
      requires Valid() && 0.0 <= percentile <= 100.0
      ensures rank == Rank(percentile, Count(shape))
    {
      rank := 1;
      if percentile != 0.0 {
        var n := GetSize();
        rank := (percentile / 100.0 * n as real).Floor;
      }
    }

    /** The search for the rank ends as `FindNthPercentile` states. */
    lemma PlaceFor(percentile: real) returns (place: int)
      requires Valid() && shape.Fork? && 0.0 <= percentile <= 100.0
      ensures IsPosition(place, percentile, |Sorted(shape)|)
      ensures var key := Descend(shape, Rank(percentile, Count(shape)));
        && (key == Sorted(shape)[place - 1] <==> RankCounts(percentile, |Sorted(shape)|) || SmallestIsLeaf(shape))
        && (percentile == 0.0 || percentile >= 50.0 ==> key == Sorted(shape)[place - 1])
        && forall k | IsPosition(k, percentile, |Sorted(shape)|) :: k == place
    {
      place := PercentileFindsIff(shape, percentile);
      hide Sorted; hide Descend; hide Rank; hide RankCounts; hide SmallestIsLeaf;
      forall k | IsPosition(k, percentile, |Sorted(shape)|) ensures k == place {
        OnePosition(k, place, percentile, |Sorted(shape)|);
      }
      if percentile == 0.0 || percentile >= 50.0 {
        var k := PercentileFinds(shape, percentile);
      }
    }

    /** The search for the node of a percentile. Both assertions of the source hold on every path. */
    method FindNthPercentile(percentile: real) returns (node: Node)
      requires Valid() && shape.Fork? && 0.0 <= percentile <= 100.0
      ensures exists k :: IsPosition(k, percentile, |Sorted(shape)|)
      ensures forall k | IsPosition(k, percentile, |Sorted(shape)|) ::
        (node.key == Sorted(shape)[k - 1] <==> RankCounts(percentile, |Sorted(shape)|) || SmallestIsLeaf(shape))
      ensures percentile == 0.0 || percentile >= 50.0 ==>
        forall k | IsPosition(k, percentile, |Sorted(shape)|) :: node.key == Sorted(shape)[k - 1]
    {
      hide Sorted; hide Ordered; hide Apart; hide Nodes; hide Rank; hide IsPosition; hide RankCounts; hide SmallestIsLeaf;
      var rank := RankOf(percentile);
      ghost var place := PlaceFor(percentile);
      SortedLength(shape);
      RankBounds(percentile, Count(shape));
      ghost var s := shape;
      var curr: Node := top;
      var left, right := curr.left, curr.right;
      while left != null || right != null
        invariant s.Fork? && curr == s.node && Matches(s) && Counted(s) && left == curr.left && right == curr.right
        invariant rank <= Count(s) && Descend(s, rank) == Descend(shape, Rank(percentile, Count(shape)))
        decreases s
      {
        SortedLength(s.left);
        SortedLength(s.right);
        var leftTotal := if left != null then left.metadata else 0;
        var rightTotal := if right != null then right.metadata else 0;
        if curr.metadata - rightTotal >= rank && leftTotal < rank {
          return curr;
        } else if left != null && leftTotal >= rank {
          curr := left;
          s := s.left;
        } else {
          assert right != null;
          rank := rank - (curr.metadata - right.metadata);
          curr := right;
          s := s.right;
        }
        left, right := curr.left, curr.right;
      }
      assert curr.metadata >= rank;
      return curr;
    }

    /** One more sample of `key`: its node counts one more, or a new node is linked in below the place where the
        search ended; then every node on the way back counts again. */
    method InsertOrUpdate(key: real)
      requires Valid()
      modifies this, nodes
      ensures Valid() && fresh(nodes - old(nodes)) && cleared == old(cleared)
      ensures multiset(Sorted(shape)) == old(multiset(Sorted(shape))) + multiset{key}
      ensures size == old(size) + if key in old(Keys(shape)) then 0 else 1
    {
      hide Matches; hide Apart; hide Nodes; hide PathMatches; hide PathNodes; hide Sorted;
      hide Counted; hide Ordered; hide Keys; hide Size; hide Rebuild; hide Plug;
      var stack, path, now := AddSample(key);
      shape := VisitAll(stack, path, now, nodes);
    }

    /** The search, and the change at the place where it ends. The counts above it are still the old ones. */
    method AddSample(key: real) returns (stack: seq<Node>, ghost path: seq<Frame>, ghost now: Shape)
      requires Valid()
      modifies this`top, this`size, this`nodes, nodes
      ensures |stack| == |path| && forall i | 0 <= i < |path| :: stack[i] == path[i].node
      ensures PathMatches(path, top, Root(now)) && Matches(now) && Apart(Plug(path, now))
      ensures nodes == PathNodes(path) + Nodes(now) && fresh(nodes - old(nodes))
      ensures Counted(Rebuild(path, now)) && Ordered(Rebuild(path, now))
      ensures multiset(Sorted(Rebuild(path, now))) == old(multiset(Sorted(shape))) + multiset{key}
      ensures size == Size(Rebuild(path, now)) == old(size) + if key in old(Keys(shape)) then 0 else 1
    {
      hide Matches; hide Apart; hide Nodes; hide PathMatches; hide PathNodes; hide PathApart; hide Plug; hide Sorted;
      hide Counted; hide Ordered; hide Keys; hide Size; hide Fits; hide OneMore; hide Added; hide Rebuild;
      var parent, found;
      ghost var s;
      parent, found, stack, path, s := FindInternal(key);
      if s.Fork? { MatchesParts(s); }
      PlaceFacts(path, s, key);
      now := Place(parent, found, key, path, s, nodes);
      SampleAdded(path, s, now, key);
      nodes := nodes + Added(s, now);
    }

    /** Count the sample at the node found, or link in a new node. */
    method Place(parent: Node?, found: Node?, key: real, ghost path: seq<Frame>, ghost s: Shape, ghost all: set<Node>)
      returns (ghost now: Shape)
      requires found == Root(s) && (found == null || found.key == key) && Matches(s) && PathMatches(path, top, found)
      requires Apart(Plug(path, s)) && Fits(path, key) && PathNodes(path) + Nodes(s) <= all
      requires parent == if path == [] then null else path[|path| - 1].node
      modifies this`top, this`size, if found != null then {found} else if parent == null then {} else {parent}
      ensures PathMatches(path, top, Root(now)) && Matches(now) && OneMore(s, now, key)
      ensures fresh(Added(s, now))
      ensures size == old(size) + if s.Nil? then 1 else 0
    {
      PlugApart(path, s);
      hide Matches; hide Apart; hide Nodes; hide PathMatches; hide PathNodes; hide PathApart; hide Plug;
      if found != null {
        MatchesParts(s);
        CountMore(found, path, s, all);
        now := s.(value := s.value + 1, count := Count(s.left) + Count(s.right) + s.value + 1);
      } else {
        var node := Link(parent, key, path, all);
        now := Fork(Nil, node, key, 1, 1, Nil);
      }
    }

    /** `Update`, and the visit of the node. */
    method CountMore(found: Node, ghost path: seq<Frame>, ghost s: Shape, ghost all: set<Node>)
      requires s.Fork? && found == s.node && Matches(s) && Apart(s)
      requires Nodes(s) !! PathNodes(path) && PathMatches(path, top, found) && PathNodes(path) + Nodes(s) <= all
      modifies found
      ensures PathMatches(path, top, found)
      ensures Matches(s.(value := s.value + 1, count := Count(s.left) + Count(s.right) + s.value + 1))
    {
      MatchesParts(s);
      ApartParts(s);
      hide Matches; hide Nodes; hide Apart; hide PathMatches; hide PathNodes;
      found.value := found.value + 1;
      Visit(found, s.left, s.right);
      MatchesWhole(s.(value := s.value + 1, count := Count(s.left) + Count(s.right) + s.value + 1));
    }

    /** `InsertInternal`, and the visit of the new node. */
    method Link(parent: Node?, key: real, ghost path: seq<Frame>, ghost all: set<Node>) returns (node: Node)
      requires PathMatches(path, top, null) && PathApart(path) && Fits(path, key) && PathNodes(path) <= all
      requires parent == if path == [] then null else path[|path| - 1].node
      modifies this`top, this`size, if parent == null then {} else {parent}
      ensures size == old(size) + 1 && fresh(node)
      ensures PathMatches(path, top, node) && Matches(Fork(Nil, node, key, 1, 1, Nil))
    {
      if path != [] { PathParts(path, top, null); } else { PathEmpty(top, null); }
      hide Matches; hide PathMatches; hide PathNodes; hide PathApart; hide Nodes;
      node := new Node(key, 1, 1);
      if parent == null { top := node; }
      else if key < parent.key { parent.left := node; }
      else { parent.right := node; }
      size := size + 1;
      Bare(node);
      Visit(node, Nil, Nil);
      MatchesWhole(Fork(Nil, node, key, 1, 1, Nil));
      if path != [] { PathParts(path, top, node); } else { PathEmpty(top, node); }
    }
  }

  // ---------- Percentiles ----------

  /** The rank that a percentile of `n` samples asks for, truncated to an integer. */
  function Rank(percentile: real, n: int): int {
    if percentile == 0.0 then 1 else (percentile / 100.0 * n as real).Floor
  }

  /** The place among `n` sorted samples that a percentile stands for: the largest `k` with `k` hundredths of the
      samples' number at most the percentile's share, and the first if there is none. */
  ghost predicate IsPosition(k: int, percentile: real, n: int) {
    && 1 <= k <= n
    && (k == 1 || Hundredfold(k) <= Share(percentile, n))
    && forall j | k < j <= n :: Hundredfold(j) > Share(percentile, n)
  }

  function Share(percentile: real, n: int): real { percentile * n as real }

  function Hundredfold(k: int): real { 100.0 * k as real }

  /** The percentile is 0 or amounts to at least one sample. */
  predicate RankCounts(percentile: real, n: int) { percentile == 0.0 || Share(percentile, n) >= 100.0 }

  lemma OnePosition(k: int, l: int, percentile: real, n: int)
    requires IsPosition(k, percentile, n) && IsPosition(l, percentile, n)
    ensures k == l
  {
    hide Share;
    assert k < l ==> Hundredfold(l) > Share(percentile, n);
    assert l < k ==> Hundredfold(k) > Share(percentile, n);
  }

  /** The rank is the position, and where it is below 1 the position is 1. */
  lemma PositionIs(percentile: real, n: int) returns (k: int)
    requires 0.0 <= percentile <= 100.0 && n >= 1
    ensures IsPosition(k, percentile, n)
    ensures Rank(percentile, n) >= 1 <==> RankCounts(percentile, n)
    ensures k == if Rank(percentile, n) >= 1 then Rank(percentile, n) else 1
  {
    RankBounds(percentile, n);
    var share := percentile * n as real;
    assert percentile / 100.0 * n as real == share / 100.0;
    ScaleReal(0.0, percentile, n as real);
    k := if Rank(percentile, n) >= 1 then Rank(percentile, n) else 1;
    if percentile != 0.0 {
      assert Rank(percentile, n) == (share / 100.0).Floor;
      assert k == 1 || k as real <= share / 100.0;
      assert share / 100.0 < (k + 1) as real;
    }
    forall j | k < j <= n ensures Hundredfold(j) > share {
      assert j as real >= (k + 1) as real;
    }
  }

  /** The key at which the search for a rank ends. */
  function Descend(s: Shape, rank: int): real
    requires s.Fork?
  {
    if s.left.Nil? && s.right.Nil? then s.key
    else if s.count - Count(s.right) >= rank && Count(s.left) < rank then s.key
    else if s.left.Fork? && Count(s.left) >= rank then Descend(s.left, rank)
    else if s.right.Fork? then Descend(s.right, rank - (s.count - Count(s.right)))
    else s.key
  }

  /** The search for rank `rank` ends at the `rank`-th smallest sample. */
  lemma {:induction false} DescendFinds(s: Shape, rank: int)
    requires s.Fork? && Counted(s) && 1 <= rank <= Count(s)
    ensures |Sorted(s)| == Count(s) && Descend(s, rank) == Sorted(s)[rank - 1]
  {
    SortedLength(s);
    SortedLength(s.left);
    SortedLength(s.right);
    if s.left.Fork? && Count(s.left) >= rank {
      DescendFinds(s.left, rank);
    } else if Count(s.left) + s.value < rank {
      DescendFinds(s.right, rank - (s.count - Count(s.right)));
    }
  }

  /** The node of the smallest key has nothing to its right. */
  predicate SmallestIsLeaf(s: Shape) {
    s.Fork? ==> if s.left.Fork? then SmallestIsLeaf(s.left) else s.right.Nil?
  }

  lemma {:induction false} DescendMember(s: Shape, rank: int)
    requires s.Fork?
    ensures Descend(s, rank) in Keys(s)
  {
    if s.left.Fork? && Count(s.left) >= rank { DescendMember(s.left, rank); }
    else if s.right.Fork? { DescendMember(s.right, rank - (s.count - Count(s.right))); }
  }

  /** A rank below 1 goes left as long as it can, and then right: it ends at the smallest sample exactly when the
      node of that sample has no right child. */
  lemma {:induction false} DescendZeroIff(s: Shape, rank: int)
    requires s.Fork? && Counted(s) && Ordered(s) && rank <= 0
    ensures |Sorted(s)| >= 1
    ensures Descend(s, rank) == Sorted(s)[0] <==> SmallestIsLeaf(s)
  {
    SortedLength(s);
    SortedLength(s.left);
    if s.left.Fork? {
      DescendZeroIff(s.left, rank);
    } else if s.right.Fork? {
      DescendMember(s.right, rank - (s.count - Count(s.right)));
      assert Sorted(s)[0] == s.key;
    }
  }

  /** The percentiles that `Summary` asks for. */
  predicate Used(percentile: real) {
    percentile == 0.0 || percentile == 50.0 || percentile == 90.0 || percentile == 95.0
    || percentile == 99.0 || percentile == 99.9 || percentile == 100.0
  }

  lemma PositionExists(percentile: real, n: int)
    requires 0.0 <= percentile <= 100.0 && n >= 1
    ensures exists k :: IsPosition(k, percentile, n)
  {
    var k := PositionIs(percentile, n);
  }

  lemma RankBounds(percentile: real, n: int)
    requires 0.0 <= percentile <= 100.0 && n >= 1
    ensures Rank(percentile, n) <= n
    ensures percentile >= 50.0 && n >= 2 ==> Rank(percentile, n) >= 1
  {
    var x := percentile / 100.0;
    assert 0.0 <= x <= 1.0;
    ScaleReal(x, 1.0, n as real);
    if percentile >= 50.0 { ScaleReal(0.5, x, n as real); }
  }

  lemma ScaleReal(a: real, b: real, c: real)
    requires a <= b && c >= 0.0
    ensures a * c <= b * c
  {}

  /** Any percentile ends at the sample at its position, exactly when it is 0 or amounts to at least one sample, or the
      node of the smallest sample has no right child. */
  lemma PercentileFindsIff(s: Shape, percentile: real) returns (k: int)
    requires s.Fork? && Counted(s) && Ordered(s) && 0.0 <= percentile <= 100.0
    ensures |Sorted(s)| == Count(s) && IsPosition(k, percentile, |Sorted(s)|)
    ensures Descend(s, Rank(percentile, Count(s))) == Sorted(s)[k - 1] <==> RankCounts(percentile, |Sorted(s)|) || SmallestIsLeaf(s)
  {
    hide Descend; hide Sorted; hide Ordered; hide Counted; hide SmallestIsLeaf; hide Count;
    SortedLength(s);
    RankBounds(percentile, Count(s));
    k := PositionIs(percentile, Count(s));
    var rank := Rank(percentile, Count(s));
    hide IsPosition; hide RankCounts; hide Rank;
    if rank >= 1 { DescendFinds(s, rank); } else { DescendZeroIff(s, rank); }
  }

  /** Every percentile in use ends at the sample at its position. */
  lemma PercentileFinds(s: Shape, percentile: real) returns (k: int)
    requires s.Fork? && Counted(s) && Ordered(s) && 0.0 <= percentile <= 100.0
    requires percentile == 0.0 || percentile >= 50.0
    ensures |Sorted(s)| == Count(s) && IsPosition(k, percentile, |Sorted(s)|)
    ensures Descend(s, Rank(percentile, Count(s))) == Sorted(s)[k - 1]
  {
    k := PercentileFindsIff(s, percentile);
    SortedLength(s);
    SortedLength(s.left);
    SortedLength(s.right);
    hide IsPosition;
    RankBounds(percentile, Count(s));
  }

  lemma GoesRight(s: Shape, rank: int)
    requires s.Fork? && s.left.Nil? && rank <= 0
    ensures Descend(s, rank) == if s.right.Fork? then Descend(s.right, rank - (s.count - Count(s.right))) else s.key
  {}

  /** A tenth percentile, which `Summary` does not use, can end at the largest sample. */
  lemma TenthOfThree(a: Node, b: Node, c: Node)
    ensures var s := Fork(Nil, a, 1.0, 1, 3, Fork(Nil, b, 2.0, 1, 2, Fork(Nil, c, 3.0, 1, 1, Nil)));
      && Counted(s) && Ordered(s) && Rank(10.0, 3) == 0
      && Descend(s, 0) == 3.0 && Sorted(s) == [1.0, 2.0, 3.0]
  {
    assert Copies(1.0, 1) == [1.0] && Copies(2.0, 1) == [2.0] && Copies(3.0, 1) == [3.0];
    var last := Fork(Nil, c, 3.0, 1, 1, Nil);
    var next := Fork(Nil, b, 2.0, 1, 2, last);
    assert Sorted(Nil) == [] && Sorted(last) == [] + Copies(3.0, 1) + [] && Sorted(next) == [] + Copies(2.0, 1) + Sorted(last);
    assert Keys(last) == {3.0} && Ordered(last) && Counted(last) && Sorted(last) == [3.0];
    assert Keys(next) == {2.0, 3.0} && Ordered(next) && Counted(next) && Sorted(next) == [2.0, 3.0];
    var all := Fork(Nil, a, 1.0, 1, 3, next);
    GoesRight(all, 0);
    GoesRight(next, -1);
    GoesRight(last, -2);
  }

  /** The place of `key` with one more sample. */
  ghost predicate OneMore(s: Shape, now: Shape, key: real) {
    match s
    case Nil => now.Fork? && now == Fork(Nil, now.node, key, 1, 1, Nil)
    case Fork(l, n, k, v, _, r) => k == key && now == Fork(l, n, k, v + 1, Count(l) + Count(r) + v + 1, r)
  }

  lemma RootKey(s: Shape, key: real)
    requires s.Fork? ==> s.key == key
    ensures key in Keys(s) <==> s.Fork?
  {}

  /** Where the place of `key` is, and whether it is taken. */
  lemma PlaceFacts(path: seq<Frame>, s: Shape, key: real)
    requires Sound(Plug(path, s)) && Fits(path, key) && (s.Fork? ==> s.key == key)
    ensures key in Keys(Plug(path, s)) <==> s.Fork?
    ensures PathNodes(path) + Nodes(s) == Nodes(Plug(path, s))
    ensures path != [] ==> path[|path| - 1].node in Nodes(Plug(path, s))
    ensures s.Fork? ==> s.node in Nodes(Plug(path, s))
  {
    NoKeyBelow(path, s, key);
    RootKey(s, key);
    PlugApart(path, s);
  }

  /** The nodes that one more sample adds. */
  ghost function Added(s: Shape, now: Shape): set<Node> {
    if s.Nil? && now.Fork? then {now.node} else {}
  }

  lemma AddedApart(path: seq<Frame>, s: Shape, now: Shape, key: real)
    requires Apart(Plug(path, s)) && OneMore(s, now, key) && Added(s, now) !! Nodes(Plug(path, s))
    ensures Apart(Plug(path, now)) && Nodes(now) == Nodes(s) + Added(s, now)
    ensures PathNodes(path) + Nodes(now) == Nodes(Plug(path, s)) + Added(s, now)
  {
    PlugApart(path, s);
    PlugApart(path, now);
  }

  lemma LocalSample(s: Shape, now: Shape, key: real)
    requires Counted(s) && Ordered(s) && OneMore(s, now, key)
    ensures multiset(Sorted(now)) == multiset(Sorted(s)) + multiset{key}
    ensures Counted(now) && Ordered(now) && Keys(now) <= Keys(s) + {key} && Size(now) == Size(s) + if s.Nil? then 1 else 0
  {
    hide Sorted; hide Ordered; hide Keys; hide Size;
    if s.Nil? {
      FirstCopy(now.node, key);
    } else {
      assert now == s.(value := s.value + 1, count := s.count + 1);
      hide Counted;
      OneCopyMore(s);
    }
  }

  /** What one more sample does to the whole tree. */
  lemma SampleAdded(path: seq<Frame>, s: Shape, now: Shape, key: real)
    requires Sound(Plug(path, s)) && OneMore(s, now, key) && Fits(path, key) && Added(s, now) !! Nodes(Plug(path, s))
    ensures Apart(Plug(path, now)) && Counted(Rebuild(path, now)) && Ordered(Rebuild(path, now))
    ensures multiset(Sorted(Rebuild(path, now))) == multiset(Sorted(Plug(path, s))) + multiset{key}
    ensures Size(Rebuild(path, now)) == Size(Plug(path, s)) + if s.Nil? then 1 else 0
    ensures PathNodes(path) + Nodes(now) == Nodes(Plug(path, s)) + Added(s, now)
  {
    hide Plug; hide Rebuild; hide Sorted; hide Counted; hide Ordered; hide Keys; hide Size; hide OneMore; hide Fits;
    hide Nodes; hide Apart; hide PathNodes; hide Added;
    PlugParts(path, s);
    AddedApart(path, s, now, key);
    LocalSample(s, now, key);
    RebuildSound(path, s, now, key);
    RebuildBag(path, s, now, key);
  }

  lemma OneCopyMore(s: Shape)
    requires s.Fork? && Counted(s) && Ordered(s)
    ensures var now := s.(value := s.value + 1, count := s.count + 1);
      && multiset(Sorted(now)) == multiset(Sorted(s)) + multiset{s.key}
      && Counted(now) && Ordered(now) && Keys(now) == Keys(s) && Size(now) == Size(s)
  {
    assert Copies(s.key, s.value + 1) == Copies(s.key, s.value) + [s.key];
  }

  lemma FirstCopy(n: Node, k: real)
    ensures var now := Fork(Nil, n, k, 1, 1, Nil);
      && multiset(Sorted(now)) == multiset(Sorted(Nil)) + multiset{k}
      && Counted(now) && Ordered(now) && Apart(now) && Nodes(now) == {n} && Nodes(Nil) == {}
      && Keys(now) == {k} && Keys(Nil) == {} && Size(now) == Size(Nil) + 1
  {
    assert Copies(k, 1) == [k];
  }
}
