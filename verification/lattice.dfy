/** The particle lattice shared by both cloth sketches: configuration, particle bodies,
    their initial ("hanging") positions and the loops that place them. */
module Lattice {

  /** A point or vector in world space; exact reals stand for the sketches' floats. */
  datatype Vec3 = Vec3(x: real, y: real, z: real)

  const Zero: Vec3 := Vec3(0.0, 0.0, 0.0)

  /** Squared Euclidean distance. A distance constraint's rest length is its square root,
      so the model keeps the square and never needs sqrt. */
  function DistSq(a: Vec3, b: Vec3): (d: real)
    ensures d >= 0.0
    ensures a == b ==> d == 0.0
    ensures a.y == b.y && a.z == b.z ==> d == (a.x - b.x) * (a.x - b.x)
  {
    (a.x - b.x) * (a.x - b.x) + (a.y - b.y) * (a.y - b.y) + (a.z - b.z) * (a.z - b.z)
  }

  /** Lattice coordinates of a particle: column x in 0..Nx, row y in 0..Ny. */
  datatype Cell = Cell(x: int, y: int)

  /** The cloth parameters a sketch fixes at setup. */
  datatype Config = Config(width: real, height: real, nx: nat, ny: nat, clothMass: real, floor: real)
  {
    /** What the placement arithmetic needs: a non-empty footprint and non-zero resolution. */
    predicate Valid() { width > 0.0 && height > 0.0 && nx > 0 && ny > 0 }

    predicate InLattice(c: Cell) { 0 <= c.x <= nx && 0 <= c.y <= ny }

    /** restDistanceX: spacing of neighbouring columns. */
    function RestDistanceX(): (r: real)
      requires Valid()
      ensures r > 0.0 && r * nx as real == width
    {
      width / nx as real
    }

    /** restDistanceY: spacing of neighbouring rows. */
    function RestDistanceY(): (r: real)
      requires Valid()
      ensures r > 0.0 && r * ny as real == height
    {
      height / ny as real
    }
  }

  /** The dense sketch: 10 x 10 cloth, 24 segments per axis, clothMass 1, floor -2. */
  const DenseConfig: Config := Config(10.0, 10.0, 24, 24, 1.0, -2.0)

  /** The sparse sketch: 10 x 10 cloth, 20 segments per axis, clothMass 3, floor -2. */
  const SparseConfig: Config := Config(10.0, 10.0, 20, 20, 3.0, -2.0)

  /** The sketches' own parameters meet what the setup, tether and sampler code relies on. */
  lemma SketchConfigs()
    ensures DenseConfig.Valid() && DenseConfig.nx == DenseConfig.ny >= 2
    ensures SparseConfig.Valid() && SparseConfig.nx == SparseConfig.ny
    ensures ParticleMass(SparseConfig) == 3.0 && ParticleMass(DenseConfig) == 1.0
  {
  }

  /** linearDamping given to every cloth particle. */
  const ParticleDamping: real := 0.5

  /** A cloth particle body as handed to the physics world. */
  datatype Body = Body(position: Vec3, velocity: Vec3, mass: real, linearDamping: real)

  /** Initial position of particle (x, y): a flat grid centred on the origin at floor height. */
  function HangingPosition(cfg: Config, x: int, y: int): (p: Vec3)
    requires cfg.Valid()
    ensures p.y == cfg.floor
    ensures p.x == x as real * cfg.RestDistanceX() - cfg.width / 2.0
    ensures p.z == y as real * cfg.RestDistanceY() - cfg.height / 2.0
  {
    Vec3((x as real - cfg.nx as real * 0.5) * cfg.RestDistanceX(),
         cfg.floor,
         (y as real - cfg.ny as real * 0.5) * cfg.RestDistanceY())
  }

  /** Mass of every cloth particle: (clothMass / Nx) * Ny. It is not a share of clothMass:
      with a square lattice each particle weighs clothMass itself. */
  function ParticleMass(cfg: Config): (m: real)
    requires cfg.nx > 0
    ensures m * cfg.nx as real == cfg.clothMass * cfg.ny as real
    ensures cfg.clothMass > 0.0 && cfg.ny > 0 ==> m > 0.0
    ensures cfg.nx == cfg.ny ==> m == cfg.clothMass
  {
    (cfg.clothMass / cfg.nx as real) * cfg.ny as real
  }

  /** The body created for particle (x, y) before any step runs. */
  function InitialBody(cfg: Config, x: int, y: int): Body
    requires cfg.Valid()
  {
    Body(HangingPosition(cfg, x, y), Zero, ParticleMass(cfg), ParticleDamping)
  }

  /** The shape of clothParticles: Nx+1 columns of Ny+1 particles each. */
  predicate IsGrid<T>(ps: seq<seq<T>>, nx: nat, ny: nat)
  {
    |ps| == nx + 1 && forall x :: 0 <= x < |ps| ==> |ps[x]| == ny + 1
  }

  /** clothParticles as the placement loops leave it. */
  predicate IsHangingGrid(cfg: Config, ps: seq<seq<Body>>)
    requires cfg.Valid()
  {
    IsGrid(ps, cfg.nx, cfg.ny) &&
    forall x, y :: 0 <= x <= cfg.nx && 0 <= y <= cfg.ny ==> ps[x][y] == InitialBody(cfg, x, y)
  }

  /** The nested placement loops: column x is pushed as an empty row, then filled y by y. */
  method PlaceParticles(cfg: Config) returns (particles: seq<seq<Body>>)
    requires cfg.Valid()
    ensures IsHangingGrid(cfg, particles)
  {
    particles := [];
    var x := 0;
    while x <= cfg.nx
      invariant 0 <= x <= cfg.nx + 1
      invariant |particles| == x
      invariant forall i :: 0 <= i < x ==> |particles[i]| == cfg.ny + 1
      invariant forall i, j :: 0 <= i < x && 0 <= j <= cfg.ny ==> particles[i][j] == InitialBody(cfg, i, j)
    {
      var column: seq<Body> := [];
      var y := 0;
      while y <= cfg.ny
        invariant 0 <= y <= cfg.ny + 1
        invariant |column| == y
        invariant forall j :: 0 <= j < y ==> column[j] == InitialBody(cfg, x, j)
      {
        column := column + [InitialBody(cfg, x, y)];
        y := y + 1;
      }
      particles := particles + [column];
      x := x + 1;
    }
  }

  /** The lattice spans exactly [-width/2, width/2] by [-height/2, height/2], every particle
      at floor height, with the first and last column and row on the edges. */
  lemma HangingSpan(cfg: Config, x: int, y: int)
    requires cfg.Valid() && cfg.InLattice(Cell(x, y))
    ensures -cfg.width / 2.0 <= HangingPosition(cfg, x, y).x <= cfg.width / 2.0
    ensures -cfg.height / 2.0 <= HangingPosition(cfg, x, y).z <= cfg.height / 2.0
    ensures HangingPosition(cfg, x, y).y == cfg.floor
    ensures x == 0 ==> HangingPosition(cfg, x, y).x == -cfg.width / 2.0
    ensures x == cfg.nx ==> HangingPosition(cfg, x, y).x == cfg.width / 2.0
    ensures y == 0 ==> HangingPosition(cfg, x, y).z == -cfg.height / 2.0
    ensures y == cfg.ny ==> HangingPosition(cfg, x, y).z == cfg.height / 2.0
  {
    var rx, ry := cfg.RestDistanceX(), cfg.RestDistanceY();
    ScaledBetween(x, cfg.nx, rx);
    ScaledBetween(y, cfg.ny, ry);
  }

  /** 0 <= k <= n implies 0 <= k*r <= n*r for positive r. */
  lemma ScaledBetween(k: int, n: nat, r: real)
    requires 0 <= k <= n && r > 0.0
    ensures 0.0 <= k as real * r <= n as real * r
  {
    assert (n - k) as real * r >= 0.0;
  }

  /** Neighbouring columns sit restDistanceX apart, neighbouring rows restDistanceY apart,
      and a diagonal pair has the sum of both squares as its squared distance. */
  lemma NeighbourDistances(cfg: Config, x: int, y: int)
    requires cfg.Valid()
    ensures DistSq(HangingPosition(cfg, x, y), HangingPosition(cfg, x + 1, y))
            == cfg.RestDistanceX() * cfg.RestDistanceX()
    ensures DistSq(HangingPosition(cfg, x, y), HangingPosition(cfg, x, y + 1))
            == cfg.RestDistanceY() * cfg.RestDistanceY()
    ensures DistSq(HangingPosition(cfg, x, y), HangingPosition(cfg, x + 1, y + 1))
            == cfg.RestDistanceX() * cfg.RestDistanceX() + cfg.RestDistanceY() * cfg.RestDistanceY()
    ensures DistSq(HangingPosition(cfg, x, y), HangingPosition(cfg, x + 1, y - 1))
            == cfg.RestDistanceX() * cfg.RestDistanceX() + cfg.RestDistanceY() * cfg.RestDistanceY()
  {
    var rx, ry := cfg.RestDistanceX(), cfg.RestDistanceY();
    var p := HangingPosition(cfg, x, y);
    assert HangingPosition(cfg, x + 1, y).x - p.x == rx;
    assert HangingPosition(cfg, x, y + 1).z - p.z == ry;
    assert HangingPosition(cfg, x, y - 1).z - p.z == -ry;
  }

  /** Distinct lattice cells start at distinct positions. */
  lemma HangingPositionInjective(cfg: Config, x1: int, y1: int, x2: int, y2: int)
    requires cfg.Valid()
    requires HangingPosition(cfg, x1, y1) == HangingPosition(cfg, x2, y2)
    ensures x1 == x2 && y1 == y2
  {
    var rx, ry := cfg.RestDistanceX(), cfg.RestDistanceY();
    assert x1 as real * rx == x2 as real * rx;
    assert (x1 - x2) as real * rx == 0.0;
    assert y1 as real * ry == y2 as real * ry;
    assert (y1 - y2) as real * ry == 0.0;
  }

  /** Every particle starts at rest with the same positive mass and the same damping. */
  lemma UniformParticles(cfg: Config, ps: seq<seq<Body>>, x: int, y: int)
    requires cfg.Valid() && cfg.clothMass > 0.0 && IsHangingGrid(cfg, ps) && cfg.InLattice(Cell(x, y))
    ensures ps[x][y].mass == ps[0][0].mass > 0.0
    ensures ps[x][y].velocity == Zero
    ensures ps[x][y].linearDamping == ParticleDamping
  {
  }
}
