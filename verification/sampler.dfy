/** The surface sampler: after the frame's steps, every particle's position is copied into
    the flat vertex buffer the renderer reads. */
module Sampler {
  import opened Lattice

  /** Buffer slot of coordinate k (0: x, 1: y, 2: z) of particle (x, y):
      (x * (Nx + 1) + y) * 3 + k. The stride is Nx + 1 although a column holds Ny + 1
      particles. */
  function Slot(nx: nat, x: int, y: int, k: int): int
  {
    (x * (nx + 1) + y) * 3 + k
  }

  /** The buffer holds three floats per vertex, (Nx + 1) * (Ny + 1) vertices. */
  function BufferLength(nx: nat, ny: nat): nat
  {
    3 * ((nx + 1) * (ny + 1))
  }

  /** The vertex loop at setup pushes one vertex per particle, column by column; the
      position attribute is a zero-filled float buffer three times that long. */
  method AllocatePositions(nx: nat, ny: nat) returns (positions: array<real>)
    ensures fresh(positions)
    ensures positions.Length == BufferLength(nx, ny)
    ensures forall s :: 0 <= s < positions.Length ==> positions[s] == 0.0
  {
    var vertices := 0;
    for x := 0 to nx + 1
      invariant vertices == x * (ny + 1)
    {
      for y := 0 to ny + 1
        invariant vertices == x * (ny + 1) + y
      {
        vertices := vertices + 1;
      }
    }
    assert vertices == (nx + 1) * (ny + 1);
    positions := new real[vertices * 3](_ => 0.0);
  }

  function Coord(p: Vec3, k: int): real
    requires 0 <= k < 3
  {
    if k == 0 then p.x else if k == 1 then p.y else p.z
  }

  /** A slot of an earlier particle (column-major, rows inside columns) comes before the
      first slot of a later one. */
  lemma SlotOrder(n: nat, x1: int, y1: int, k1: int, x2: int, y2: int)
    requires 0 <= y1 <= n && 0 <= y2 <= n && 0 <= k1 < 3
    requires x1 < x2 || (x1 == x2 && y1 < y2)
    ensures Slot(n, x1, y1, k1) < Slot(n, x2, y2, 0)
  {
    if x1 < x2 {
      assert (x1 + 1) * (n + 1) <= x2 * (n + 1) by {
        assert (x2 - (x1 + 1)) * (n + 1) >= 0;
      }
      assert x1 * (n + 1) + y1 < (x1 + 1) * (n + 1);
    }
  }

  /** With a square lattice every slot lies inside the buffer. */
  lemma SlotInRange(n: nat, x: int, y: int, k: int)
    requires 0 <= x <= n && 0 <= y <= n && 0 <= k < 3
    ensures 0 <= Slot(n, x, y, k) < BufferLength(n, n)
  {
    assert 0 <= x * (n + 1);
    SlotOrder(n, x, y, k, n + 1, 0);
  }

  /** The slots before a particle's first slot, the one past the last particle included,
      fit in the buffer. */
  lemma SlotBound(n: nat, x: int, y: int)
    requires 0 <= x <= n && 0 <= y <= n + 1
    ensures 0 <= Slot(n, x, y, 0) <= BufferLength(n, n)
  {
    if y <= n {
      SlotInRange(n, x, y, 0);
    } else {
      assert Slot(n, x, y, 0) == Slot(n, x + 1, 0, 0);
      if x < n {
        SlotInRange(n, x + 1, 0, 0);
      }
    }
  }

  /** Distinct (particle, coordinate) triples go to distinct slots. */
  lemma SlotInjective(n: nat, x1: int, y1: int, k1: int, x2: int, y2: int, k2: int)
    requires 0 <= y1 <= n && 0 <= y2 <= n && 0 <= k1 < 3 && 0 <= k2 < 3
    requires Slot(n, x1, y1, k1) == Slot(n, x2, y2, k2)
    ensures x1 == x2 && y1 == y2 && k1 == k2
  {
    if x1 < x2 || (x1 == x2 && y1 < y2) {
      SlotOrder(n, x1, y1, k1, x2, y2);
    } else if x2 < x1 || (x1 == x2 && y2 < y1) {
      SlotOrder(n, x2, y2, k2, x1, y1);
    }
  }

  /** Division with a positive divisor has exactly one quotient and remainder. */
  lemma DivModUnique(a: int, d: int, q: int, r: int)
    requires d > 0 && a == q * d + r && 0 <= r < d
    ensures a / d == q && a % d == r
  {
    var q', r' := a / d, a % d;
    assert (q - q') * d == r' - r;
    if q > q' {
      MulAtLeast(q - q', d);
    } else if q < q' {
      MulAtLeast(q' - q, d);
    }
  }

  lemma MulAtLeast(e: int, d: int)
    requires e >= 1 && d >= 0
    ensures e * d >= d
  {
    assert e * d == d + (e - 1) * d;
  }

  /** A slot decomposes back into its particle and coordinate: the column is
      slot / (3 * (n + 1)), the row (slot % (3 * (n + 1))) / 3 and the coordinate the
      remainder by 3. */
  lemma SlotDecompose(n: nat, x: int, y: int, k: int)
    requires 0 <= y <= n && 0 <= k < 3
    ensures Slot(n, x, y, k) / (3 * (n + 1)) == x
    ensures Slot(n, x, y, k) % (3 * (n + 1)) / 3 == y
    ensures Slot(n, x, y, k) % (3 * (n + 1)) % 3 == k
  {
    var r := 3 * y + k;
    assert Slot(n, x, y, k) == x * (3 * (n + 1)) + r;
    DivModUnique(Slot(n, x, y, k), 3 * (n + 1), x, r);
    DivModUnique(r, 3, y, k);
  }

  /** Every slot of the buffer of a square lattice belongs to some particle and coordinate. */
  lemma SlotSurjective(n: nat, i: int)
    requires 0 <= i < BufferLength(n, n)
    ensures 0 <= i / (3 * (n + 1)) <= n && 0 <= i % (3 * (n + 1)) / 3 <= n
    ensures i == Slot(n, i / (3 * (n + 1)), i % (3 * (n + 1)) / 3, i % (3 * (n + 1)) % 3)
  {
    var m := n + 1;
    var x, r := i / (3 * m), i % (3 * m);
    QuotientBelow(i, 3 * m, m);
    SplitRemainder(n, x, r);
    assert i == x * (3 * m) + r;
  }

  /** A quotient by d of a number below d * m is below m. */
  lemma QuotientBelow(i: int, d: int, m: int)
    requires 0 <= i < d * m && d > 0
    ensures 0 <= i / d < m
  {
    assert i == (i / d) * d + i % d;
  }

  /** Column x and the in-column remainder r give back the slot of row r / 3. */
  lemma SplitRemainder(n: nat, x: int, r: int)
    requires 0 <= r < 3 * (n + 1)
    ensures 0 <= r / 3 <= n
    ensures Slot(n, x, r / 3, r % 3) == x * (3 * (n + 1)) + r
  {
  }

  /** The value the write loop leaves in slot s: coordinate s % 3 of the particle the slot
      belongs to. */
  function FlatCoord(ps: seq<seq<Body>>, n: nat, s: int): real
    requires IsGrid(ps, n, n) && 0 <= s < BufferLength(n, n)
  {
    SlotSurjective(n, s);
    var r := s % (3 * (n + 1));
    Coord(ps[s / (3 * (n + 1))][r / 3].position, r % 3)
  }

  /** Only a square lattice is safe: with fewer columns than rows two particles share a
      slot, with more columns than rows the last particle falls past the buffer. */
  lemma NonSquareStrideFails(nx: nat, ny: nat)
    requires nx >= 1 && ny >= 1 && nx != ny
    ensures nx < ny ==> Slot(nx, 0, nx + 1, 0) == Slot(nx, 1, 0, 0) && nx + 1 <= ny
    ensures nx > ny ==> Slot(nx, nx, ny, 2) >= BufferLength(nx, ny)
  {
    if nx > ny {
      assert nx * (nx + 1) >= (ny + 1) * (nx + 1);
    }
  }

  /** The position write loop: particle (x, y) goes to slots (x * (Nx + 1) + y) * 3 + 0, 1, 2.
      The sketches use one resolution for both axes, which the stride relies on; the loop
      then fills the buffer in slot order and leaves no slot unwritten. */
  method WritePositions(positions: array<real>, ps: seq<seq<Body>>, nx: nat, ny: nat)
    requires nx == ny && IsGrid(ps, nx, ny) && positions.Length == BufferLength(nx, ny)
    modifies positions
    ensures forall s :: 0 <= s < positions.Length ==> positions[s] == FlatCoord(ps, nx, s)
  {
    var x := 0;
    while x <= nx
      invariant 0 <= x <= nx + 1
      invariant Slot(nx, x, 0, 0) <= BufferLength(nx, ny)
      invariant forall s :: 0 <= s < Slot(nx, x, 0, 0) ==> positions[s] == FlatCoord(ps, nx, s)
    {
      var y := 0;
      while y <= ny
        invariant 0 <= y <= ny + 1
        invariant Slot(nx, x, y, 0) <= BufferLength(nx, ny)
        invariant forall s :: 0 <= s < Slot(nx, x, y, 0) ==> positions[s] == FlatCoord(ps, nx, s)
      {
        var p := ps[x][y].position;
        var index := (x * (nx + 1) + y) * 3;
        VertexSlots(positions, ps, nx, x, y, index);
        positions[index] := p.x;
        positions[index + 1] := p.y;
        positions[index + 2] := p.z;
        forall s | index <= s < index + 3
          ensures positions[s] == FlatCoord(ps, nx, s)
        {
          assert positions[s] == Coord(p, s - index);
        }
        SlotBound(nx, x, y + 1);
        y := y + 1;
      }
      assert Slot(nx, x, ny + 1, 0) == Slot(nx, x + 1, 0, 0);
      x := x + 1;
    }
  }

  /** The three slots the loop body writes for particle (x, y) are in the buffer and are
      the ones FlatCoord assigns to that particle's coordinates. */
  lemma VertexSlots(positions: array<real>, ps: seq<seq<Body>>, n: nat, x: int, y: int, index: int)
    requires IsGrid(ps, n, n) && positions.Length == BufferLength(n, n)
    requires 0 <= x <= n && 0 <= y <= n && index == Slot(n, x, y, 0)
    ensures 0 <= index && index + 2 < positions.Length
    ensures forall k :: 0 <= k < 3 ==> FlatCoord(ps, n, index + k) == Coord(ps[x][y].position, k)
  {
    SlotInRange(n, x, y, 2);
    forall k | 0 <= k < 3
      ensures FlatCoord(ps, n, index + k) == Coord(ps[x][y].position, k)
    {
      assert index + k == Slot(n, x, y, k);
      SlotDecompose(n, x, y, k);
    }
  }

  /** Read back by particle: after the write loop, coordinate k of particle (x, y) is in
      slot (x * (n + 1) + y) * 3 + k. */
  lemma SlotHoldsCoord(ps: seq<seq<Body>>, n: nat, x: int, y: int, k: int)
    requires IsGrid(ps, n, n) && 0 <= x <= n && 0 <= y <= n && 0 <= k < 3
    ensures 0 <= Slot(n, x, y, k) < BufferLength(n, n)
    ensures FlatCoord(ps, n, Slot(n, x, y, k)) == Coord(ps[x][y].position, k)
  {
    SlotInRange(n, x, y, k);
    SlotDecompose(n, x, y, k);
  }
}
