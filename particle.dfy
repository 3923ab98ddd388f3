/** One point of the particle-network background canvas: its state, how the
    random draws made at creation become its velocity, radius and colour, and
    the step that moves it once per animation frame. */
module Particle {

  /** The glow colours a node can take; the colour draw picks one of them. */
  const Palette: seq<string> := ["#00ffff", "#0066ff", "#39ff14", "#aa00ff"]

  /** Everything a node holds. Coordinates are exact reals: the model is about
      bounds and sign flips, not about floating-point rounding. */
  datatype NodeState = NodeState(x: real, y: real, vx: real, vy: real, radius: real, color: string)

  /** The six values Math.random() returns while one node is made, in the
      order they are drawn: start x, start y, then (inside the constructor)
      vx, vy, radius and colour. */
  datatype NodeDraws = NodeDraws(x: real, y: real, vx: real, vy: real, radius: real, color: real)
  {
    predicate Valid() {
      IsDraw(x) && IsDraw(y) && IsDraw(vx) && IsDraw(vy) && IsDraw(radius) && IsDraw(color)
    }
  }

  /** A value Math.random() can return. */
  predicate IsDraw(r: real) {
    0.0 <= r < 1.0
  }

  function Min(a: real, b: real): real {
    if a <= b then a else b
  }

  function Max(a: real, b: real): real {
    if a >= b then a else b
  }

  function Abs(a: real): real {
    if a < 0.0 then -a else a
  }

  // ---------------------------------------------------------------------------
  // Creation: random draws mapped to ranges
  // ---------------------------------------------------------------------------

  /** A velocity component, `(random - 0.5) * 2`: uniform over [-1, 1). */
  function VelocityFromDraw(r: real): (v: real)
    requires IsDraw(r)
    ensures -1.0 <= v < 1.0
  {
    (r - 0.5) * 2.0
  }

  /** Every velocity in [-1, 1) is produced by exactly one draw. */
  lemma VelocityCoversRange(v: real)
    requires -1.0 <= v < 1.0
    ensures IsDraw((v + 1.0) / 2.0) && VelocityFromDraw((v + 1.0) / 2.0) == v
    ensures forall r :: IsDraw(r) && VelocityFromDraw(r) == v ==> r == (v + 1.0) / 2.0
  {
  }

  /** A radius, `random * 2 + 1`: in [1, 3). */
  function RadiusFromDraw(r: real): (radius: real)
    requires IsDraw(r)
    ensures 1.0 <= radius < 3.0
  {
    r * 2.0 + 1.0
  }

  /** The palette index, `floor(random * 4)`: the index i whose quarter
      [i/4, (i+1)/4) of the unit interval holds the draw. */
  function ColorIndexFromDraw(r: real): (i: nat)
    requires IsDraw(r)
    ensures i < |Palette|
    ensures i as real <= r * 4.0 < i as real + 1.0
  {
    (r * 4.0).Floor
  }

  /** Every colour of the palette is reachable: the draw i/4 picks colour i. */
  lemma {:induction false} ColorCoversPalette(i: nat)
    requires i < |Palette|
    ensures IsDraw(i as real / 4.0) && ColorIndexFromDraw(i as real / 4.0) == i
  {
    assert (i as real / 4.0) * 4.0 == i as real;
  }

  /** A starting coordinate, `random * extent`: on the canvas, and strictly
      below the far edge whenever the canvas has any extent on that axis. */
  function StartCoordinate(r: real, extent: nat): (p: real)
    requires IsDraw(r)
    ensures 0.0 <= p <= extent as real
    ensures extent > 0 ==> p < extent as real
  {
    var e := extent as real;
    assert 0.0 <= (1.0 - r) * e && (extent > 0 ==> 0.0 < (1.0 - r) * e);
    assert e - r * e == (1.0 - r) * e;
    r * e
  }

  /** The state the Node constructor gives a node placed at (x0, y0). */
  function NewState(x0: real, y0: real, d: NodeDraws): (s: NodeState)
    requires d.Valid()
    ensures s.x == x0 && s.y == y0
    ensures -1.0 <= s.vx < 1.0 && -1.0 <= s.vy < 1.0
    ensures 1.0 <= s.radius < 3.0
    ensures s.color in Palette
  {
    NodeState(x0, y0, VelocityFromDraw(d.vx), VelocityFromDraw(d.vy),
              RadiusFromDraw(d.radius), Palette[ColorIndexFromDraw(d.color)])
  }

  /** The state of a node created during setup on a width x height canvas. */
  function Spawned(d: NodeDraws, width: nat, height: nat): (s: NodeState)
    requires d.Valid()
    ensures InCanvas(s, width, height)
    ensures width > 0 ==> s.x < width as real
    ensures height > 0 ==> s.y < height as real
    ensures -1.0 <= s.vx < 1.0 && -1.0 <= s.vy < 1.0
    ensures 1.0 <= s.radius < 3.0
    ensures s.color in Palette
  {
    NewState(StartCoordinate(d.x, width), StartCoordinate(d.y, height), d)
  }

  // ---------------------------------------------------------------------------
  // The per-frame step
  // ---------------------------------------------------------------------------

  predicate InCanvas(s: NodeState, width: nat, height: nat) {
    0.0 <= s.x <= width as real && 0.0 <= s.y <= height as real
  }

  /** A coordinate that has left [0, extent]. */
  predicate Outside(p: real, extent: real) {
    p < 0.0 || p > extent
  }

  /** `Math.max(0, Math.min(extent, p))`: the point of [0, extent] nearest p. */
  function Clamp(p: real, extent: real): (c: real)
    requires 0.0 <= extent
    ensures 0.0 <= c <= extent
    ensures !Outside(p, extent) ==> c == p
    ensures p < 0.0 ==> c == 0.0
    ensures p > extent ==> c == extent
  {
    Max(0.0, Min(extent, p))
  }

  /** No point of [0, extent] is nearer to p than its clamp. */
  lemma ClampIsNearest(p: real, extent: real, z: real)
    requires 0.0 <= extent && 0.0 <= z <= extent
    ensures Abs(Clamp(p, extent) - p) <= Abs(z - p)
  {
  }

  /** One call of update() on a width x height canvas: move by the velocity,
      reverse each velocity component whose coordinate left the canvas, then
      clamp the position back onto the canvas. */
  function Step(s: NodeState, width: nat, height: nat): (t: NodeState)
    ensures InCanvas(t, width, height)
    ensures Outside(s.x + s.vx, width as real) ==> t.vx == -s.vx
    ensures !Outside(s.x + s.vx, width as real) ==> t.vx == s.vx
    ensures Outside(s.y + s.vy, height as real) ==> t.vy == -s.vy
    ensures !Outside(s.y + s.vy, height as real) ==> t.vy == s.vy
    ensures t.radius == s.radius && t.color == s.color
  {
    var x, y := s.x + s.vx, s.y + s.vy;
    var vx := if Outside(x, width as real) then -s.vx else s.vx;
    var vy := if Outside(y, height as real) then -s.vy else s.vy;
    NodeState(Clamp(x, width as real), Clamp(y, height as real), vx, vy, s.radius, s.color)
  }

  /** A step that stays on the canvas moves the node by exactly its velocity. */
  lemma StepInsideIsExact(s: NodeState, width: nat, height: nat)
    requires !Outside(s.x + s.vx, width as real) && !Outside(s.y + s.vy, height as real)
    ensures Step(s, width, height) == s.(x := s.x + s.vx, y := s.y + s.vy)
  {
  }

  /** From a position on the canvas, a bounce always turns the velocity back
      towards the inside: a node that crossed the left edge now moves right,
      one that crossed the right edge now moves left (likewise vertically). */
  lemma BounceTurnsInward(s: NodeState, width: nat, height: nat)
    requires InCanvas(s, width, height)
    ensures s.x + s.vx < 0.0 ==> Step(s, width, height).vx > 0.0
    ensures s.x + s.vx > width as real ==> Step(s, width, height).vx < 0.0
    ensures s.y + s.vy < 0.0 ==> Step(s, width, height).vy > 0.0
    ensures s.y + s.vy > height as real ==> Step(s, width, height).vy < 0.0
  {
  }

  /** From a position on the canvas, a step moves a node by no more than its
      speed along each axis: the clamp never makes it jump. */
  lemma StepMovesAtMostSpeed(s: NodeState, width: nat, height: nat)
    requires InCanvas(s, width, height)
    ensures Abs(Step(s, width, height).x - s.x) <= Abs(s.vx)
    ensures Abs(Step(s, width, height).y - s.y) <= Abs(s.vy)
  {
  }

  /** A canvas size as the resize handler leaves it between frames. */
  datatype Size = Size(width: nat, height: nat)

  /** The node after one frame per entry of sizes, each frame on the canvas
      size current at that frame (the canvas may be resized in between). */
  function Frames(s: NodeState, sizes: seq<Size>): (t: NodeState)
    ensures t.radius == s.radius && t.color == s.color
    ensures sizes != [] ==> InCanvas(t, sizes[|sizes| - 1].width, sizes[|sizes| - 1].height)
    decreases |sizes|
  {
    if sizes == [] then s
    else
      var last := sizes[|sizes| - 1];
      Step(Frames(s, sizes[..|sizes| - 1]), last.width, last.height)
  }

  /** Across any number of frames and resizes, a node keeps its speed on each
      axis (the radius, the colour and the position on the latest canvas are
      in the contract of Frames). */
  lemma {:induction false} FramesInvariant(s: NodeState, sizes: seq<Size>)
    ensures Abs(Frames(s, sizes).vx) == Abs(s.vx) && Abs(Frames(s, sizes).vy) == Abs(s.vy)
    decreases |sizes|
  {
    if sizes != [] {
      FramesInvariant(s, sizes[..|sizes| - 1]);
    }
  }

  /** A node of the network. Only update() changes it, and only its position
      and velocity; radius and colour are fixed when it is made. */
  class Node {
    var x: real
    var y: real
    var vx: real
    var vy: real
    var radius: real
    var color: string

    function State(): NodeState
      reads this
    {
      NodeState(x, y, vx, vy, radius, color)
    }

    /** `new Node(x, y)`: the position is given, the rest comes from draws. */
    constructor (x0: real, y0: real, d: NodeDraws)
      requires d.Valid()
      ensures State() == NewState(x0, y0, d)
    {
      x := x0;
      y := y0;
      vx := (d.vx - 0.5) * 2.0;
      vy := (d.vy - 0.5) * 2.0;
      radius := d.radius * 2.0 + 1.0;
      color := Palette[(d.color * 4.0).Floor];
    }

    /** update(), reading the canvas size current at this frame. */
    method Update(width: nat, height: nat)
      modifies this`x, this`y, this`vx, this`vy
      ensures State() == Step(old(State()), width, height)
    {
      x := x + vx;
      y := y + vy;

      if x < 0.0 || x > width as real {
        vx := vx * -1.0;
      }
      if y < 0.0 || y > height as real {
        vy := vy * -1.0;
      }

      x := Max(0.0, Min(width as real, x));
      y := Max(0.0, Min(height as real, y));
    }
  }
}
