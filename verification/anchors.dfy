/** Anchor bodies and the tethers that tie cloth particles to them. */
module Anchors {
  import opened Lattice
  import opened Topology

  /** A body the physics world never moves: mass 0. */
  datatype Anchor = Anchor(position: Vec3, mass: real)

  /** anchorDistance of the dense sketch: the tether length and the anchors' height above the floor. */
  const TetherLength: real := 2.0

  /** anchorDistance of the sparse sketch: anchors sit on the floor. */
  const CornerLift: real := 0.0

  /** The dense sketch's anchor points: one above each (x, z) quadrant at (+-1, +-1). */
  function TetherAnchorPoints(floor: real): (ps: seq<Vec3>)
    ensures |ps| == 4
    ensures forall i :: 0 <= i < 4 ==> ps[i].y == floor + TetherLength
    ensures forall i :: 0 <= i < 4 ==> (ps[i].x == 1.0 || ps[i].x == -1.0) && (ps[i].z == 1.0 || ps[i].z == -1.0)
    ensures forall i, j :: 0 <= i < j < 4 ==> ps[i] != ps[j]
  {
    [Vec3(-1.0, floor + TetherLength, -1.0),
     Vec3(1.0, floor + TetherLength, -1.0),
     Vec3(-1.0, floor + TetherLength, 1.0),
     Vec3(1.0, floor + TetherLength, 1.0)]
  }

  /** The sparse sketch's anchor points: the four corners of the cloth footprint, in the
      order (-,-), (+,-), (+,+), (-,+). */
  function CornerAnchorPoints(cfg: Config): (ps: seq<Vec3>)
    ensures |ps| == 4
  {
    [Vec3(-cfg.width / 2.0, cfg.floor + CornerLift, -cfg.height / 2.0),
     Vec3(cfg.width / 2.0, cfg.floor + CornerLift, -cfg.height / 2.0),
     Vec3(cfg.width / 2.0, cfg.floor + CornerLift, cfg.height / 2.0),
     Vec3(-cfg.width / 2.0, cfg.floor + CornerLift, cfg.height / 2.0)]
  }

  /** The lattice corners in the same order: the particles the sparse sketch's disabled
      tether code would have tied to its anchors. */
  function CornerCells(cfg: Config): seq<Cell>
  {
    [Cell(0, 0), Cell(cfg.nx, 0), Cell(cfg.nx, cfg.ny), Cell(0, cfg.ny)]
  }

  /** Each sparse-sketch anchor starts exactly where the corresponding corner particle hangs. */
  lemma CornerAnchorsOnCorners(cfg: Config, i: int)
    requires cfg.Valid() && 0 <= i < 4
    ensures CornerAnchorPoints(cfg)[i] == HangingPosition(cfg, CornerCells(cfg)[i].x, CornerCells(cfg)[i].y)
  {
    var c := CornerCells(cfg)[i];
    HangingSpan(cfg, c.x, c.y);
  }

  /** anchorPoints.forEach: one zero-mass body per point, in order. */
  method CreateAnchors(points: seq<Vec3>) returns (anchors: seq<Anchor>)
    ensures |anchors| == |points|
    ensures forall i :: 0 <= i < |points| ==> anchors[i].position == points[i] && anchors[i].mass == 0.0
  {
    anchors := [];
    for i := 0 to |points|
      invariant |anchors| == i
      invariant forall k :: 0 <= k < i ==> anchors[k].position == points[k] && anchors[k].mass == 0.0
    {
      anchors := anchors + [Anchor(points[i], 0.0)];
    }
  }

  /** The particles the dense sketch tethers: the corners of the 2 x 2 block of quads
      around (floor(Nx/2), floor(Ny/2)), in the order of its anchor points. */
  function TetheredCells(nx: nat, ny: nat): (cs: seq<Cell>)
    ensures |cs| == 4
  {
    var cx, cy := nx / 2, ny / 2;
    [Cell(cx - 1, cy - 1), Cell(cx + 1, cy - 1), Cell(cx - 1, cy + 1), Cell(cx + 1, cy + 1)]
  }

  /** From 2 segments per axis on, the four tethered particles exist and are distinct. */
  lemma TetheredCellsValid(nx: nat, ny: nat)
    requires nx >= 2 && ny >= 2
    ensures forall i :: 0 <= i < 4 ==>
      0 <= TetheredCells(nx, ny)[i].x <= nx && 0 <= TetheredCells(nx, ny)[i].y <= ny
    ensures forall i, j :: 0 <= i < j < 4 ==> TetheredCells(nx, ny)[i] != TetheredCells(nx, ny)[j]
  {
  }

  /** Below 2 segments on either axis the first tethered particle lies outside the lattice
      (the sketch would index column or row -1). */
  lemma TetheredCellsOutside(nx: nat, ny: nat)
    requires nx < 2 || ny < 2
    ensures TetheredCells(nx, ny)[0].x < 0 || TetheredCells(nx, ny)[0].y < 0
  {
  }

  /** cornerParticles.forEach: particle i is tied to anchor i by a constraint whose rest
      length is the given constant, not a measured distance. */
  method AttachTethers(cells: seq<Cell>, anchors: seq<Anchor>, length: real) returns (cs: seq<Constraint>)
    requires |cells| <= |anchors|
    ensures |cs| == |cells|
    ensures forall i :: 0 <= i < |cells| ==> cs[i] == Constraint(OnParticle(cells[i]), OnAnchor(i), length * length)
  {
    cs := [];
    for i := 0 to |cells|
      invariant |cs| == i
      invariant forall k :: 0 <= k < i ==> cs[k] == Constraint(OnParticle(cells[k]), OnAnchor(k), length * length)
    {
      cs := cs + [Constraint(OnParticle(cells[i]), OnAnchor(i), length * length)];
    }
  }
}
