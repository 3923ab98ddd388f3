/** The particle network itself: how many nodes the canvas gets, the setup
    loop that makes them, and one animation frame, which steps every node and
    then draws a line between every close pair. */
module Network {
  import opened Particle

  /** At most this many nodes, whatever the canvas width. */
  const MaxNodes: nat := 50
  /** One node per this many pixels of canvas width. */
  const PixelsPerNode: nat := 20
  /** Two nodes closer than this (in pixels) are joined by a line. */
  const LinkDistance: real := 150.0
  /** The opacity of a line between two nodes at the same point. */
  const MaxLineAlpha: real := 0.3

  /** The canvas element: its drawing-buffer size, which the resize handler
      copies from the element's displayed size. */
  class Canvas {
    var width: nat
    var height: nat

    constructor (width0: nat, height0: nat)
      ensures width == width0 && height == height0
    {
      width := width0;
      height := height0;
    }

    /** resizeCanvas(): take over the displayed (offset) size. */
    method Resize(offsetWidth: nat, offsetHeight: nat)
      modifies this
      ensures width == offsetWidth && height == offsetHeight
    {
      width := offsetWidth;
      height := offsetHeight;
    }
  }

  // ---------------------------------------------------------------------------
  // Setup
  // ---------------------------------------------------------------------------

  /** `Math.min(50, Math.floor(width / 20))`: the largest count of at most 50
      nodes that gives each node 20 pixels of width. */
  function NodeCount(width: nat): (n: nat)
    ensures n <= MaxNodes
    ensures n * PixelsPerNode <= width
    ensures n == MaxNodes || width < (n + 1) * PixelsPerNode
  {
    if width / PixelsPerNode < MaxNodes then width / PixelsPerNode else MaxNodes
  }

  /** No larger count also fits the two bounds: NodeCount is the maximum. */
  lemma NodeCountIsLargest(width: nat, m: nat)
    requires m <= MaxNodes && m * PixelsPerNode <= width
    ensures m <= NodeCount(width)
  {
  }

  lemma NodeCountExamples()
    ensures NodeCount(1000) == 50 && NodeCount(400) == 20 && NodeCount(10000) == 50
    ensures NodeCount(19) == 0 && NodeCount(39) == 1
  {
  }

  predicate Distinct(nodes: seq<Node>) {
    forall a, b :: 0 <= a < b < |nodes| ==> nodes[a] != nodes[b]
  }

  /** The setup loop: one new node per iteration, pushed onto the list, each
      placed at a random point of the canvas. draws[k] holds the random values
      drawn for the k-th node. */
  method CreateNodes(canvas: Canvas, draws: seq<NodeDraws>) returns (nodes: seq<Node>)
    requires forall k :: 0 <= k < |draws| ==> draws[k].Valid()
    requires NodeCount(canvas.width) <= |draws|
    ensures |nodes| == NodeCount(canvas.width)
    ensures Distinct(nodes)
    ensures forall k :: 0 <= k < |nodes| ==> fresh(nodes[k])
    ensures forall k :: 0 <= k < |nodes| ==>
              nodes[k].State() == Spawned(draws[k], canvas.width, canvas.height)
  {
    nodes := [];
    var nodeCount := NodeCount(canvas.width);
    var i := 0;
    while i < nodeCount
      invariant 0 <= i <= nodeCount && |nodes| == i
      invariant Distinct(nodes)
      invariant forall k :: 0 <= k < i ==> fresh(nodes[k])
      invariant forall k :: 0 <= k < i ==>
                  nodes[k].State() == Spawned(draws[k], canvas.width, canvas.height)
    {
      var d := draws[i];
      var node := new Node(d.x * canvas.width as real, d.y * canvas.height as real, d);
      nodes := nodes + [node];
      i := i + 1;
    }
  }

  // ---------------------------------------------------------------------------
  // Connections
  // ---------------------------------------------------------------------------

  datatype Point = Point(x: real, y: real)

  /** A connecting line between nodes i and j, stroked with opacity alpha. */
  datatype Line = Line(i: nat, j: nat, alpha: real)

  /** What Math.sqrt is taken to compute: the non-negative square root. */
  ghost predicate IsSqrt(root: real -> real) {
    forall q: real :: 0.0 <= q ==> 0.0 <= root(q) && root(q) * root(q) == q
  }

  /** The squared distance dx * dx + dy * dy, which is never negative. */
  function SquaredDistance(p: Point, q: Point): (sq: real)
    ensures 0.0 <= sq
  {
    var dx, dy := p.x - q.x, p.y - q.y;
    assert 0.0 <= dx * dx && 0.0 <= dy * dy;
    dx * dx + dy * dy
  }

  /** Math.sqrt(dx * dx + dy * dy): with a true square root, the non-negative
      number whose square is the squared distance. */
  function Distance(p: Point, q: Point, root: real -> real): (d: real)
    ensures IsSqrt(root) ==> 0.0 <= d && d * d == SquaredDistance(p, q)
  {
    root(SquaredDistance(p, q))
  }

  /** The distance test needs no square root: a pair is closer than 150
      exactly when its squared distance is below 150 * 150. */
  lemma CloseIffSquaredClose(p: Point, q: Point, root: real -> real)
    requires IsSqrt(root)
    ensures Distance(p, q, root) < LinkDistance <==> SquaredDistance(p, q) < LinkDistance * LinkDistance
  {
    var sq, d := SquaredDistance(p, q), Distance(p, q, root);
    assert 0.0 <= d && d * d == sq;
    if d < LinkDistance {
      assert d * d <= d * LinkDistance < LinkDistance * LinkDistance;
    } else {
      assert d * d >= d * LinkDistance >= LinkDistance * LinkDistance;
    }
  }

  /** `(150 - d) / 150 * 0.3`: the line is visible (positive opacity) exactly
      for pairs closer than 150, fully 0.3 for coincident nodes, and never
      above 0.3 for a real distance. */
  function LineAlpha(d: real): (alpha: real)
    ensures alpha > 0.0 <==> d < LinkDistance
    ensures 0.0 <= d ==> alpha <= MaxLineAlpha
    ensures d == 0.0 ==> alpha == MaxLineAlpha
  {
    (LinkDistance - d) / LinkDistance * MaxLineAlpha
  }

  /** The farther apart, the fainter the line. */
  lemma LineAlphaDecreasing(d1: real, d2: real)
    requires d1 < d2
    ensures LineAlpha(d2) < LineAlpha(d1)
  {
  }

  lemma LineAlphaExamples()
    ensures LineAlpha(0.0) == 0.3 && LineAlpha(75.0) == 0.15 && LineAlpha(150.0) == 0.0
  {
  }

  /** The pairs (i, i+1), ..., (i, j-1), in the order the inner loop visits them. */
  function Row(i: nat, j: nat): seq<(nat, nat)>
    decreases j
  {
    if j <= i + 1 then [] else Row(i, j - 1) + [(i, j - 1)]
  }

  /** The pairs the nested loop over n nodes visits while its outer index is
      below i, in visiting order. */
  function PairsBefore(i: nat, n: nat): seq<(nat, nat)>
  {
    if i == 0 then [] else PairsBefore(i - 1, n) + Row(i - 1, n)
  }

  /** Every pair the nested loop over n nodes visits, in visiting order. */
  function AllPairs(n: nat): seq<(nat, nat)> {
    PairsBefore(n, n)
  }

  /** Row(i, j) holds j - i - 1 pairs. */
  lemma {:induction false} RowLength(i: nat, j: nat)
    ensures |Row(i, j)| == if j <= i + 1 then 0 else j - i - 1
    decreases j
  {
    if j > i + 1 {
      RowLength(i, j - 1);
    }
  }

  /** The k-th pair of Row(i, j) is (i, i + 1 + k). */
  lemma {:induction false} RowElements(i: nat, j: nat)
    ensures forall k :: 0 <= k < |Row(i, j)| ==> Row(i, j)[k] == (i, i + 1 + k)
    decreases j
  {
    if j > i + 1 {
      RowElements(i, j - 1);
      RowLength(i, j - 1);
    }
  }

  /** Every pair visited before outer index i has its first index below i and
      its second above the first and below n. */
  lemma {:induction false} PairsBeforeBounds(i: nat, n: nat)
    ensures forall k :: 0 <= k < |PairsBefore(i, n)| ==>
              PairsBefore(i, n)[k].0 < i && PairsBefore(i, n)[k].0 < PairsBefore(i, n)[k].1 < n
  {
    if i > 0 {
      PairsBeforeBounds(i - 1, n);
      RowLength(i - 1, n);
      RowElements(i - 1, n);
      var prev, row := PairsBefore(i - 1, n), Row(i - 1, n);
      var ps: seq<(nat, nat)> := prev + row;
      forall k | 0 <= k < |ps|
        ensures ps[k].0 < i && ps[k].0 < ps[k].1 < n
      {
        if k < |prev| {
          assert ps[k] == prev[k];
        } else {
          assert ps[k] == row[k - |prev|];
        }
      }
    }
  }

  /** Lexicographic order on index pairs. */
  predicate Before(p: (nat, nat), q: (nat, nat)) {
    p.0 < q.0 || (p.0 == q.0 && p.1 < q.1)
  }

  predicate Ascending(ps: seq<(nat, nat)>) {
    forall a, b :: 0 <= a < b < |ps| ==> Before(ps[a], ps[b])
  }

  /** Every pair (a, b) with a < i and a < b < n is visited before outer index i. */
  lemma {:induction false} PairsBeforeCover(i: nat, n: nat)
    ensures forall a: nat, b: nat :: a < i && a < b < n ==> (a, b) in PairsBefore(i, n)
  {
    if i > 0 {
      PairsBeforeCover(i - 1, n);
      RowLength(i - 1, n);
      RowElements(i - 1, n);
      var prev, row := PairsBefore(i - 1, n), Row(i - 1, n);
      var all: seq<(nat, nat)> := prev + row;
      forall a: nat, b: nat | a < i && a < b < n
        ensures (a, b) in all
      {
        if a < i - 1 {
          var k :| 0 <= k < |prev| && prev[k] == (a, b);
          assert all[k] == (a, b);
        } else {
          assert all[|prev| + b - i] == row[b - i] == (a, b);
        }
      }
    }
  }

  /** The loop visits pairs in ascending order, so never one pair twice. */
  lemma {:induction false} PairsBeforeAscending(i: nat, n: nat)
    ensures Ascending(PairsBefore(i, n))
  {
    if i > 0 {
      PairsBeforeAscending(i - 1, n);
      PairsBeforeBounds(i - 1, n);
      RowLength(i - 1, n);
      RowElements(i - 1, n);
      var prev, row := PairsBefore(i - 1, n), Row(i - 1, n);
      forall x, y | 0 <= x < y < |prev + row|
        ensures Before((prev + row)[x], (prev + row)[y])
      {
        if y < |prev| {
          assert Before(prev[x], prev[y]);
        } else if x < |prev| {
          assert (prev + row)[x] == prev[x] && (prev + row)[y] == row[y - |prev|];
        } else {
          assert (prev + row)[x] == row[x - |prev|] && (prev + row)[y] == row[y - |prev|];
        }
      }
    }
  }

  /** The arithmetic step of PairsBeforeCount: outer index i - 1 adds n - i pairs. */
  lemma CountStep(i: nat, n: nat)
    requires 0 < i <= n
    ensures (i - 1) * (2 * n - i) + 2 * (n - i) == i * (2 * n - i - 1)
  {
    var m := 2 * n - i;
    assert (i - 1) * m == i * m - m;
    assert i * m == i * (m - 1) + i;
  }

  /** i * (2n - i - 1) / 2 pairs are visited before outer index i. */
  lemma {:induction false} PairsBeforeCount(i: nat, n: nat)
    requires i <= n
    ensures 2 * |PairsBefore(i, n)| == i * (2 * n - i - 1)
  {
    if i > 0 {
      PairsBeforeCount(i - 1, n);
      RowLength(i - 1, n);
      CountStep(i, n);
    }
  }

  /** The nested loop visits every unordered pair of distinct nodes exactly
      once: its pairs are exactly those i < j < n, in ascending (hence
      duplicate-free) order, n * (n - 1) / 2 of them. */
  lemma AllPairsExact(n: nat)
    ensures forall i: nat, j: nat :: (i, j) in AllPairs(n) <==> i < j < n
    ensures Ascending(AllPairs(n))
    ensures 2 * |AllPairs(n)| == n * (n - 1)
  {
    PairsBeforeCover(n, n);
    PairsBeforeBounds(n, n);
    PairsBeforeAscending(n, n);
    PairsBeforeCount(n, n);
  }

  /** Line l joins two distinct nodes of pts closer than 150, with the
      opacity LineAlpha gives their distance. */
  predicate Joins(l: Line, pts: seq<Point>, root: real -> real) {
    l.i < l.j < |pts| && Distance(pts[l.i], pts[l.j], root) < LinkDistance &&
    l.alpha == LineAlpha(Distance(pts[l.i], pts[l.j], root))
  }

  /** The lines the inner loop strokes for outer index i while its index runs
      from i + 1 up to, not including, j: one for each node closer than 150
      to node i, in that order. */
  function RowLines(i: nat, j: nat, pts: seq<Point>, root: real -> real): seq<Line>
    requires i < |pts| && j <= |pts|
    decreases j
  {
    if j <= i + 1 then []
    else
      var rest := RowLines(i, j - 1, pts, root);
      var d := Distance(pts[i], pts[j - 1], root);
      if d < LinkDistance then rest + [Line(i, j - 1, LineAlpha(d))] else rest
  }

  /** The lines stroked during the outer iterations 0 .. i - 1, in order. */
  function FrameLines(i: nat, pts: seq<Point>, root: real -> real): seq<Line>
    requires i <= |pts|
  {
    if i == 0 then [] else FrameLines(i - 1, pts, root) + RowLines(i - 1, |pts|, pts, root)
  }

  /** The lines of a whole frame over the node positions pts. */
  function AllLines(pts: seq<Point>, root: real -> real): seq<Line> {
    FrameLines(|pts|, pts, root)
  }

  /** Every line of row i joins node i to a later node below j. */
  lemma {:induction false} RowLinesSound(i: nat, j: nat, pts: seq<Point>, root: real -> real)
    requires i < |pts| && j <= |pts|
    ensures forall k :: 0 <= k < |RowLines(i, j, pts, root)| ==>
              RowLines(i, j, pts, root)[k].i == i && RowLines(i, j, pts, root)[k].j < j &&
              Joins(RowLines(i, j, pts, root)[k], pts, root)
    decreases j
  {
    if j > i + 1 {
      RowLinesSound(i, j - 1, pts, root);
    }
  }

  /** Row i's lines go to ever later nodes. */
  lemma {:induction false} RowLinesAscending(i: nat, j: nat, pts: seq<Point>, root: real -> real)
    requires i < |pts| && j <= |pts|
    ensures forall a, b :: 0 <= a < b < |RowLines(i, j, pts, root)| ==>
              RowLines(i, j, pts, root)[a].j < RowLines(i, j, pts, root)[b].j
    decreases j
  {
    if j > i + 1 {
      RowLinesAscending(i, j - 1, pts, root);
      RowLinesSound(i, j - 1, pts, root);
    }
  }

  /** Every node m with i < m < j closer than 150 to node i gets a line in row i. */
  lemma {:induction false} RowLinesComplete(i: nat, j: nat, m: nat, pts: seq<Point>, root: real -> real)
    requires i < m < j <= |pts| && Distance(pts[i], pts[m], root) < LinkDistance
    ensures exists k :: 0 <= k < |RowLines(i, j, pts, root)| &&
              RowLines(i, j, pts, root)[k].i == i && RowLines(i, j, pts, root)[k].j == m
    decreases j
  {
    var rest := RowLines(i, j - 1, pts, root);
    if m < j - 1 {
      RowLinesComplete(i, j - 1, m, pts, root);
      var k :| 0 <= k < |rest| && rest[k].i == i && rest[k].j == m;
      assert RowLines(i, j, pts, root)[k] == rest[k];
    } else {
      assert RowLines(i, j, pts, root)[|rest|] == Line(i, m, LineAlpha(Distance(pts[i], pts[m], root)));
    }
  }

  /** Every line stroked before outer index i starts at a node below i and
      joins it to a later node closer than 150. */
  lemma {:induction false} FrameLinesSound(i: nat, pts: seq<Point>, root: real -> real)
    requires i <= |pts|
    ensures forall k :: 0 <= k < |FrameLines(i, pts, root)| ==>
              FrameLines(i, pts, root)[k].i < i && Joins(FrameLines(i, pts, root)[k], pts, root)
  {
    if i > 0 {
      FrameLinesSound(i - 1, pts, root);
      RowLinesSound(i - 1, |pts|, pts, root);
      var prev, row := FrameLines(i - 1, pts, root), RowLines(i - 1, |pts|, pts, root);
      var all: seq<Line> := prev + row;
      forall k | 0 <= k < |all|
        ensures all[k].i < i && Joins(all[k], pts, root)
      {
        if k < |prev| {
          assert all[k] == prev[k];
        } else {
          assert all[k] == row[k - |prev|];
        }
      }
    }
  }

  /** The lines stroked before outer index i come in ascending order of their
      node pairs. */
  lemma {:induction false} FrameLinesAscending(i: nat, pts: seq<Point>, root: real -> real)
    requires i <= |pts|
    ensures forall a, b :: 0 <= a < b < |FrameLines(i, pts, root)| ==>
              Before((FrameLines(i, pts, root)[a].i, FrameLines(i, pts, root)[a].j),
                     (FrameLines(i, pts, root)[b].i, FrameLines(i, pts, root)[b].j))
  {
    if i > 0 {
      FrameLinesAscending(i - 1, pts, root);
      FrameLinesSound(i - 1, pts, root);
      RowLinesSound(i - 1, |pts|, pts, root);
      RowLinesAscending(i - 1, |pts|, pts, root);
      var prev, row := FrameLines(i - 1, pts, root), RowLines(i - 1, |pts|, pts, root);
      var all: seq<Line> := prev + row;
      forall a, b | 0 <= a < b < |all|
        ensures Before((all[a].i, all[a].j), (all[b].i, all[b].j))
      {
        if b < |prev| {
          assert all[a] == prev[a] && all[b] == prev[b];
        } else if a < |prev| {
          assert all[a] == prev[a] && all[b] == row[b - |prev|];
        } else {
          assert all[a] == row[a - |prev|] && all[b] == row[b - |prev|];
        }
      }
    }
  }

  /** The position k of the line of the close pair (a, b) among the lines
      stroked before outer index i, for a below i. */
  lemma {:induction false} FrameLinesIndex(i: nat, a: nat, b: nat, pts: seq<Point>, root: real -> real)
    returns (k: nat)
    requires a < i <= |pts| && a < b < |pts| && Distance(pts[a], pts[b], root) < LinkDistance
    ensures k < |FrameLines(i, pts, root)|
    ensures FrameLines(i, pts, root)[k].i == a && FrameLines(i, pts, root)[k].j == b
  {
    var prev, row := FrameLines(i - 1, pts, root), RowLines(i - 1, |pts|, pts, root);
    if a < i - 1 {
      k := FrameLinesIndex(i - 1, a, b, pts, root);
      assert FrameLines(i, pts, root)[k] == prev[k];
    } else {
      RowLinesComplete(a, |pts|, b, pts, root);
      var r :| 0 <= r < |row| && row[r].i == a && row[r].j == b;
      k := |prev| + r;
      assert FrameLines(i, pts, root)[k] == row[r];
    }
  }

  /** Every pair a < b of nodes closer than 150 with a below i has its line
      among those stroked before outer index i. */
  lemma FrameLinesComplete(i: nat, a: nat, b: nat, pts: seq<Point>, root: real -> real)
    requires a < i <= |pts| && a < b < |pts| && Distance(pts[a], pts[b], root) < LinkDistance
    ensures exists k :: 0 <= k < |FrameLines(i, pts, root)| &&
              FrameLines(i, pts, root)[k].i == a && FrameLines(i, pts, root)[k].j == b
  {
    var k := FrameLinesIndex(i, a, b, pts, root);
  }

  /** The lines of one frame join only distinct nodes i < j closer than 150,
      each with the opacity of its distance, which lies in (0, 0.3]. */
  lemma ConnectionsSound(pts: seq<Point>, root: real -> real)
    requires IsSqrt(root)
    ensures forall k :: 0 <= k < |AllLines(pts, root)| ==>
              Joins(AllLines(pts, root)[k], pts, root) &&
              0.0 < AllLines(pts, root)[k].alpha <= MaxLineAlpha
  {
    FrameLinesSound(|pts|, pts, root);
  }

  /** In one frame every pair i < j of nodes closer than 150 gets a line. */
  lemma ConnectionsComplete(pts: seq<Point>, root: real -> real)
    ensures forall i: nat, j: nat :: i < j < |pts| && Distance(pts[i], pts[j], root) < LinkDistance ==>
              exists k :: 0 <= k < |AllLines(pts, root)| &&
                AllLines(pts, root)[k].i == i && AllLines(pts, root)[k].j == j
  {
    forall i: nat, j: nat | i < j < |pts| && Distance(pts[i], pts[j], root) < LinkDistance
      ensures exists k :: 0 <= k < |AllLines(pts, root)| &&
                AllLines(pts, root)[k].i == i && AllLines(pts, root)[k].j == j
    {
      FrameLinesComplete(|pts|, i, j, pts, root);
      assert AllLines(pts, root) == FrameLines(|pts|, pts, root);
    }
  }

  /** In one frame no pair of nodes gets two lines. */
  lemma ConnectionsOnce(pts: seq<Point>, root: real -> real)
    ensures forall a, b :: 0 <= a < b < |AllLines(pts, root)| ==>
              (AllLines(pts, root)[a].i, AllLines(pts, root)[a].j) !=
              (AllLines(pts, root)[b].i, AllLines(pts, root)[b].j)
  {
    FrameLinesAscending(|pts|, pts, root);
  }

  /** The inner loop for outer index i: it visits (i, j) for every later node
      j, in order, and appends the lines of the close pairs to those drawn.
      The ghost visited records the pairs it visits. */
  method ConnectRow(pts: seq<Point>, root: real -> real, i: nat, drawn: seq<Line>)
    returns (lines: seq<Line>, ghost visited: seq<(nat, nat)>)
    requires i < |pts|
    ensures lines == drawn + RowLines(i, |pts|, pts, root)
    ensures visited == Row(i, |pts|)
  {
    var n := |pts|;
    lines := drawn;
    visited := [];
    var j := i + 1;
    while j < n
      invariant i + 1 <= j <= n
      invariant lines == drawn + RowLines(i, j, pts, root)
      invariant visited == Row(i, j)
    {
      var distance := Distance(pts[i], pts[j], root);
      if distance < LinkDistance {
        lines := lines + [Line(i, j, LineAlpha(distance))];
      }
      visited := visited + [(i, j)];
      j := j + 1;
    }
  }

  /** One more outer iteration appends one row to the lines and the pairs. */
  lemma NextRow(i: nat, pts: seq<Point>, root: real -> real)
    requires i < |pts|
    ensures FrameLines(i + 1, pts, root) == FrameLines(i, pts, root) + RowLines(i, |pts|, pts, root)
    ensures PairsBefore(i + 1, |pts|) == PairsBefore(i, |pts|) + Row(i, |pts|)
  {
  }

  /** The nested pair loop of a frame over the node positions pts: row after
      row, it visits the pairs of AllPairs(|pts|) in order (the ghost visited)
      and strokes the lines of AllLines. */
  method Connections(pts: seq<Point>, root: real -> real)
    returns (lines: seq<Line>, ghost visited: seq<(nat, nat)>)
    ensures lines == AllLines(pts, root)
    ensures visited == AllPairs(|pts|)
  {
    var n := |pts|;
    lines := [];
    visited := [];
    var i := 0;
    while i < n
      invariant 0 <= i <= n
      invariant lines == FrameLines(i, pts, root)
      invariant visited == PairsBefore(i, n)
    {
      ghost var row;
      lines, row := ConnectRow(pts, root, i, lines);
      visited := visited + row;
      NextRow(i, pts, root);
      i := i + 1;
    }
  }

  // ---------------------------------------------------------------------------
  // One animation frame
  // ---------------------------------------------------------------------------

  /** The part of the 2D context the frame's line pass writes: the global
      opacity, and the lines stroked so far with the opacity each had. */
  class Context {
    var globalAlpha: real
    var strokes: seq<Line>

    constructor ()
      ensures globalAlpha == 1.0 && strokes == []
    {
      globalAlpha := 1.0;
      strokes := [];
    }
  }

  /** The nodes and the canvas they are drawn on, as one animate() closure
      sees them. The list is fixed once setup has filled it. */
  class Network {
    const canvas: Canvas
    const nodes: seq<Node>

    ghost predicate Valid() {
      Distinct(nodes)
    }

    constructor (canvas0: Canvas, nodes0: seq<Node>)
      requires Distinct(nodes0)
      ensures canvas == canvas0 && nodes == nodes0 && Valid()
    {
      canvas := canvas0;
      nodes := nodes0;
    }

    function Positions(): (pts: seq<Point>)
      reads nodes
      ensures |pts| == |nodes|
      ensures forall k :: 0 <= k < |nodes| ==> pts[k] == Point(nodes[k].x, nodes[k].y)
    {
      seq(|nodes|, k reads nodes requires 0 <= k < |nodes| => Point(nodes[k].x, nodes[k].y))
    }

    /** One animate() frame, without its drawing and its scheduling: every
        node takes one step on the current canvas size, then every pair closer
        than 150 gets a line, and the global opacity ends at 1. */
    method Animate(ctx: Context, root: real -> real)
      requires Valid()
      modifies nodes, ctx
      ensures forall k :: 0 <= k < |nodes| ==>
                nodes[k].State() == Step(old(nodes[k].State()), canvas.width, canvas.height)
      ensures forall k :: 0 <= k < |nodes| ==> InCanvas(nodes[k].State(), canvas.width, canvas.height)
      ensures ctx.strokes == old(ctx.strokes) + AllLines(Positions(), root)
      ensures ctx.globalAlpha == 1.0
    {
      var k := 0;
      while k < |nodes|
        invariant 0 <= k <= |nodes|
        invariant forall m :: 0 <= m < k ==> nodes[m].State() == Step(old(nodes[m].State()), canvas.width, canvas.height)
        invariant forall m :: k <= m < |nodes| ==> nodes[m].State() == old(nodes[m].State())
        invariant unchanged(ctx)
      {
        nodes[k].Update(canvas.width, canvas.height);
        k := k + 1;
      }
      var lines, _ := Connections(Positions(), root);
      ctx.strokes := ctx.strokes + lines;
      ctx.globalAlpha := 1.0;
    }
  }
}
