/** The wind: the flow-field grid, the lookup of a particle's flow-field cell, and the pass
    that hands every particle the force of its cell. */
module Wind {
  import opened Lattice

  /** flowFieldSize: the flow field is a 32 x 32 grid over the cloth footprint. */
  const FlowFieldSize: nat := 32

  function Min(a: int, b: int): int { if a <= b then a else b }

  function Max(a: int, b: int): int { if a >= b then a else b }

  /** Math.max(lo, Math.min(hi, v)). */
  function Clamp(v: int, lo: int, hi: int): (r: int)
    requires lo <= hi
    ensures lo <= r <= hi
    ensures lo <= v <= hi ==> r == v
    ensures v < lo ==> r == lo
    ensures v > hi ==> r == hi
  {
    Max(lo, Min(hi, v))
  }

  /** Math.floor((coord + extent / 2) / extent * size): the unclamped cell index of a
      coordinate along one axis of a footprint of the given extent centred on 0. */
  function RawCell(coord: real, extent: real, size: nat): int
    requires extent > 0.0
  {
    ((coord + extent / 2.0) / extent * size as real).Floor
  }

  /** gridX / gridY: the cell index, clamped to 0 .. size-1. */
  function WindCell(coord: real, extent: real, size: nat): (g: int)
    requires extent > 0.0 && size >= 1
    ensures 0 <= g < size
    ensures 0 <= RawCell(coord, extent, size) < size ==> g == RawCell(coord, extent, size)
    ensures RawCell(coord, extent, size) < 0 ==> g == 0
    ensures RawCell(coord, extent, size) >= size ==> g == size - 1
  {
    Clamp(RawCell(coord, extent, size), 0, size - 1)
  }

  /** A coordinate inside [-extent/2, extent/2) needs no clamping. */
  lemma InteriorNeedsNoClamp(coord: real, extent: real, size: nat)
    requires extent > 0.0 && size >= 1
    requires -extent / 2.0 <= coord < extent / 2.0
    ensures 0 <= RawCell(coord, extent, size) < size
    ensures WindCell(coord, extent, size) == RawCell(coord, extent, size)
  {
    var f := (coord + extent / 2.0) / extent;
    assert 0.0 <= f < 1.0 by {
      assert coord + extent / 2.0 < extent;
      assert f * extent == coord + extent / 2.0;
    }
    assert 0.0 <= f * size as real < size as real;
  }

  /** The far edge +extent/2, where the last column and row of the hanging lattice lie,
      maps one past the last cell and is clamped back to size-1. */
  lemma FarEdgeClamped(extent: real, size: nat)
    requires extent > 0.0 && size >= 1
    ensures RawCell(extent / 2.0, extent, size) == size
    ensures WindCell(extent / 2.0, extent, size) == size - 1
  {
    assert (extent / 2.0 + extent / 2.0) / extent == 1.0;
  }

  /** Moving along an axis never moves the looked-up cell backwards. */
  lemma WindCellMonotone(c1: real, c2: real, extent: real, size: nat)
    requires extent > 0.0 && size >= 1 && c1 <= c2
    ensures RawCell(c1, extent, size) <= RawCell(c2, extent, size)
    ensures WindCell(c1, extent, size) <= WindCell(c2, extent, size)
  {
    var f1, f2 := (c1 + extent / 2.0) / extent, (c2 + extent / 2.0) / extent;
    assert f1 <= f2 by {
      assert f2 - f1 == (c2 - c1) / extent;
    }
    assert f1 * size as real <= f2 * size as real by {
      assert (f2 - f1) * size as real >= 0.0;
    }
  }

  /** createFlowField: row y, column x holds the (noise-driven) wind vector of cell (x, y).
      The noise, normalisation and scaling are the function sample. */
  method CreateFlowField(size: nat, sample: (int, int) -> Vec3) returns (field: seq<seq<Vec3>>)
    ensures |field| == size
    ensures forall y :: 0 <= y < size ==> |field[y]| == size
    ensures forall y, x :: 0 <= y < size && 0 <= x < size ==> field[y][x] == sample(x, y)
  {
    field := [];
    var y := 0;
    while y < size
      invariant 0 <= y <= size
      invariant |field| == y
      invariant forall r :: 0 <= r < y ==> |field[r]| == size
      invariant forall r, x :: 0 <= r < y && 0 <= x < size ==> field[r][x] == sample(x, r)
    {
      var row: seq<Vec3> := [];
      var x := 0;
      while x < size
        invariant 0 <= x <= size
        invariant |row| == x
        invariant forall c :: 0 <= c < x ==> row[c] == sample(c, y)
      {
        row := row + [sample(x, y)];
        x := x + 1;
      }
      field := field + [row];
      y := y + 1;
    }
  }

  predicate IsField(field: seq<seq<Vec3>>)
  {
    |field| == FlowFieldSize && forall r :: 0 <= r < |field| ==> |field[r]| == FlowFieldSize
  }

  /** The wind a particle at position p receives: flowField[gridY][gridX], with gridX from
      the x coordinate over the cloth width and gridY from the z coordinate over its height. */
  function WindAt(cfg: Config, field: seq<seq<Vec3>>, p: Vec3): Vec3
    requires cfg.Valid() && IsField(field)
  {
    field[WindCell(p.z, cfg.height, FlowFieldSize)][WindCell(p.x, cfg.width, FlowFieldSize)]
  }

  /** The field is indexed row-first, so a particle receives the sample of cell
      (gridX, gridY) in the generator's (x, y) order. */
  lemma WindAtSample(cfg: Config, field: seq<seq<Vec3>>, sample: (int, int) -> Vec3, p: Vec3)
    requires cfg.Valid() && IsField(field)
    requires forall y, x :: 0 <= y < FlowFieldSize && 0 <= x < FlowFieldSize ==> field[y][x] == sample(x, y)
    ensures WindAt(cfg, field, p) == sample(WindCell(p.x, cfg.width, FlowFieldSize), WindCell(p.z, cfg.height, FlowFieldSize))
  {
  }

  /** The wind pass over clothParticles: particle (x, y) is given the force of the cell
      its current position falls in. */
  method WindForces(cfg: Config, ps: seq<seq<Body>>, field: seq<seq<Vec3>>) returns (forces: seq<seq<Vec3>>)
    requires cfg.Valid() && IsGrid(ps, cfg.nx, cfg.ny) && IsField(field)
    ensures IsGrid(forces, cfg.nx, cfg.ny)
    ensures forall x, y :: 0 <= x <= cfg.nx && 0 <= y <= cfg.ny ==> forces[x][y] == WindAt(cfg, field, ps[x][y].position)
  {
    forces := [];
    var x := 0;
    while x <= cfg.nx
      invariant 0 <= x <= cfg.nx + 1
      invariant |forces| == x
      invariant forall i :: 0 <= i < x ==> |forces[i]| == cfg.ny + 1
      invariant forall i, j :: 0 <= i < x && 0 <= j <= cfg.ny ==> forces[i][j] == WindAt(cfg, field, ps[i][j].position)
    {
      var column := WindColumn(cfg, ps, field, x);
      forces := forces + [column];
      x := x + 1;
    }
  }

  /** One column x of the wind pass: particles (x, 0) .. (x, Ny). */
  method WindColumn(cfg: Config, ps: seq<seq<Body>>, field: seq<seq<Vec3>>, x: int) returns (column: seq<Vec3>)
    requires cfg.Valid() && IsGrid(ps, cfg.nx, cfg.ny) && IsField(field) && 0 <= x <= cfg.nx
    ensures |column| == cfg.ny + 1
    ensures forall y :: 0 <= y <= cfg.ny ==> column[y] == WindAt(cfg, field, ps[x][y].position)
  {
    column := [];
    var y := 0;
    while y <= cfg.ny
      invariant 0 <= y <= cfg.ny + 1
      invariant |column| == y
      invariant forall j :: 0 <= j < y ==> column[j] == WindAt(cfg, field, ps[x][j].position)
    {
      var p := ps[x][y].position;
      var gridX := RawCell(p.x, cfg.width, FlowFieldSize);
      var gridY := RawCell(p.z, cfg.height, FlowFieldSize);
      gridX := Max(0, Min(FlowFieldSize - 1, gridX));
      gridY := Max(0, Min(FlowFieldSize - 1, gridY));
      column := column + [field[gridY][gridX]];
      y := y + 1;
    }
  }
}
