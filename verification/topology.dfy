/** The distance-constraint topology both sketches build over the particle lattice.
    The dense sketch links each cell to its right and lower neighbours and both diagonals;
    the sparse sketch keeps the two structural links only. */
module Topology {
  import opened Lattice

  /** Dense: structural plus diagonal links. Sparse: structural links only. */
  datatype Variant = Dense | Sparse

  /** The four neighbour offsets connectParticles is called with. */
  datatype Dir = Vertical | Horizontal | Diagonal | AntiDiagonal

  /** One connectParticles(x, y, x + dx, y + dy) call, identified by its first particle
      and its direction. */
  datatype Link = Link(x: int, y: int, dir: Dir)

  function From(l: Link): Cell
  {
    Cell(l.x, l.y)
  }

  function To(l: Link): Cell
  {
    match l.dir
    case Vertical => Cell(l.x, l.y + 1)
    case Horizontal => Cell(l.x + 1, l.y)
    case Diagonal => Cell(l.x + 1, l.y + 1)
    case AntiDiagonal => Cell(l.x + 1, l.y - 1)
  }

  /** The link joins particles a and b, in either order (a distance constraint is symmetric). */
  predicate Joins(l: Link, a: Cell, b: Cell)
  {
    (From(l) == a && To(l) == b) || (From(l) == b && To(l) == a)
  }

  predicate Distinct<T(==)>(s: seq<T>)
  {
    forall i, j :: 0 <= i < j < |s| ==> s[i] != s[j]
  }

  /** The links one iteration (x, y) of the constraint loops creates, in call order. */
  function CellLinks(v: Variant, nx: nat, ny: nat, x: int, y: int): seq<Link>
  {
    if x < nx && y < ny then
      [Link(x, y, Vertical), Link(x, y, Horizontal)] +
      (if v == Dense then [Link(x, y, Diagonal)] + (if y > 0 then [Link(x, y, AntiDiagonal)] else [])
       else [])
    else if x == nx && y < ny then [Link(x, y, Vertical)]
    else if x < nx && y == ny then [Link(x, y, Horizontal)]
    else []
  }

  /** The links iterations (x, 0) .. (x, y-1) create. */
  function RowLinks(v: Variant, nx: nat, ny: nat, x: int, y: nat): seq<Link>
  {
    if y == 0 then [] else RowLinks(v, nx, ny, x, y - 1) + CellLinks(v, nx, ny, x, y - 1)
  }

  /** The links the outer iterations 0 .. x-1 create. */
  function LoopLinks(v: Variant, nx: nat, ny: nat, x: nat): seq<Link>
  {
    if x == 0 then [] else LoopLinks(v, nx, ny, x - 1) + RowLinks(v, nx, ny, x - 1, ny + 1)
  }

  /** Every link the two nested loops create, in creation order. */
  function Links(v: Variant, nx: nat, ny: nat): seq<Link>
  {
    LoopLinks(v, nx, ny, nx + 1)
  }

  /** Which links a variant has, stated without the loops: structural links to the
      right and below everywhere they fit, the down-right diagonal in every quad and,
      in the dense variant, the up-right diagonal only for rows 1 .. Ny-1. */
  predicate Generated(v: Variant, nx: nat, ny: nat, l: Link)
  {
    match l.dir
    case Vertical => 0 <= l.x <= nx && 0 <= l.y < ny
    case Horizontal => 0 <= l.x < nx && 0 <= l.y <= ny
    case Diagonal => v == Dense && 0 <= l.x < nx && 0 <= l.y < ny
    case AntiDiagonal => v == Dense && 0 <= l.x < nx && 0 < l.y < ny
  }

  lemma CellLinksMembers(v: Variant, nx: nat, ny: nat, x: int, y: int)
    requires 0 <= x <= nx && 0 <= y <= ny
    ensures Distinct(CellLinks(v, nx, ny, x, y))
    ensures forall l :: l in CellLinks(v, nx, ny, x, y) <==> Generated(v, nx, ny, l) && l.x == x && l.y == y
  {
  }

  lemma {:induction false} RowLinksMembers(v: Variant, nx: nat, ny: nat, x: int, y: nat)
    requires 0 <= x <= nx && y <= ny + 1
    ensures Distinct(RowLinks(v, nx, ny, x, y))
    ensures forall l :: l in RowLinks(v, nx, ny, x, y) <==> Generated(v, nx, ny, l) && l.x == x && l.y < y
  {
    if y > 0 {
      var a, b := RowLinks(v, nx, ny, x, y - 1), CellLinks(v, nx, ny, x, y - 1);
      RowLinksMembers(v, nx, ny, x, y - 1);
      CellLinksMembers(v, nx, ny, x, y - 1);
      assert RowLinks(v, nx, ny, x, y) == a + b;
      forall t | t in a
        ensures t !in b
      {
      }
      DistinctConcat(a, b);
      forall l
        ensures l in a + b <==> Generated(v, nx, ny, l) && l.x == x && l.y < y
      {
      }
    }
  }

  lemma {:induction false} LoopLinksMembers(v: Variant, nx: nat, ny: nat, x: nat)
    requires x <= nx + 1
    ensures Distinct(LoopLinks(v, nx, ny, x))
    ensures forall l :: l in LoopLinks(v, nx, ny, x) <==> Generated(v, nx, ny, l) && l.x < x
  {
    if x > 0 {
      LoopLinksMembers(v, nx, ny, x - 1);
      RowLinksMembers(v, nx, ny, x - 1, ny + 1);
      DistinctConcat(LoopLinks(v, nx, ny, x - 1), RowLinks(v, nx, ny, x - 1, ny + 1));
    }
  }

  lemma DistinctConcat<T>(a: seq<T>, b: seq<T>)
    requires Distinct(a) && Distinct(b)
    requires forall t :: t in a ==> t !in b
    ensures Distinct(a + b)
  {
    forall i, j | 0 <= i < j < |a + b|
      ensures (a + b)[i] != (a + b)[j]
    {
      if i < |a| <= j {
        assert (a + b)[i] in a && (a + b)[j] in b;
      }
    }
  }

  /** The loops create exactly the links Generated describes, each one once. */
  lemma LinksExactly(v: Variant, nx: nat, ny: nat)
    ensures Distinct(Links(v, nx, ny))
    ensures forall l :: l in Links(v, nx, ny) <==> Generated(v, nx, ny, l)
  {
    LoopLinksMembers(v, nx, ny, nx + 1);
  }

  /** Every constraint joins two particles inside the (Nx+1) x (Ny+1) lattice, and the
      sparse variant has no diagonal. */
  lemma LinksInLattice(v: Variant, nx: nat, ny: nat)
    ensures forall l :: l in Links(v, nx, ny) ==>
      0 <= From(l).x <= nx && 0 <= From(l).y <= ny && 0 <= To(l).x <= nx && 0 <= To(l).y <= ny
    ensures v == Sparse ==> forall l :: l in Links(v, nx, ny) ==> l.dir == Vertical || l.dir == Horizontal
  {
    LinksExactly(v, nx, ny);
  }

  /** A link is determined by the unordered pair of particles it joins. */
  lemma JoinsDetermines(l: Link, m: Link)
    requires Joins(l, From(m), To(m))
    ensures l == m
  {
  }

  /** No two constraints of the loops join the same pair of particles. */
  lemma NoDuplicatePairs(v: Variant, nx: nat, ny: nat)
    ensures forall i, j :: 0 <= i < j < |Links(v, nx, ny)| ==>
      !Joins(Links(v, nx, ny)[i], From(Links(v, nx, ny)[j]), To(Links(v, nx, ny)[j]))
  {
    var ls := Links(v, nx, ny);
    LinksExactly(v, nx, ny);
    forall i, j | 0 <= i < j < |ls|
      ensures !Joins(ls[i], From(ls[j]), To(ls[j]))
    {
      if Joins(ls[i], From(ls[j]), To(ls[j])) {
        JoinsDetermines(ls[i], ls[j]);
      }
    }
  }

  /** Each horizontal and each vertical lattice edge is joined by exactly one constraint. */
  lemma StructuralEdgeOnce(v: Variant, nx: nat, ny: nat, a: Cell, b: Cell)
    requires 0 <= a.x <= nx && 0 <= a.y <= ny && 0 <= b.x <= nx && 0 <= b.y <= ny
    requires b == Cell(a.x + 1, a.y) || b == Cell(a.x, a.y + 1)
    ensures exists i :: 0 <= i < |Links(v, nx, ny)| && Joins(Links(v, nx, ny)[i], a, b) &&
              (forall j :: 0 <= j < |Links(v, nx, ny)| && Joins(Links(v, nx, ny)[j], a, b) ==> j == i)
  {
    var ls := Links(v, nx, ny);
    LinksExactly(v, nx, ny);
    var m := if b == Cell(a.x + 1, a.y) then Link(a.x, a.y, Horizontal) else Link(a.x, a.y, Vertical);
    assert Generated(v, nx, ny, m);
    var i :| 0 <= i < |ls| && ls[i] == m;
    forall j | 0 <= j < |ls| && Joins(ls[j], a, b)
      ensures j == i
    {
      JoinsDetermines(ls[j], m);
    }
  }

  /** The dense loops never join (x, Ny) to (x+1, Ny-1): the y == Ny branch adds only the
      horizontal link, so the last row of quads has one diagonal each. */
  lemma LastRowAntiDiagonalMissing(nx: nat, ny: nat, x: int)
    ensures forall l :: l in Links(Dense, nx, ny) ==> !Joins(l, Cell(x, ny), Cell(x + 1, ny - 1))
  {
    LinksExactly(Dense, nx, ny);
  }

  lemma {:induction false} RowLinksSize(v: Variant, nx: nat, ny: nat, x: int, y: nat)
    requires 0 <= x <= nx && y <= ny
    ensures x < nx && v == Dense ==> |RowLinks(v, nx, ny, x, y)| == if y == 0 then 0 else 4 * y - 1
    ensures x < nx && v == Sparse ==> |RowLinks(v, nx, ny, x, y)| == 2 * y
    ensures x == nx ==> |RowLinks(v, nx, ny, x, y)| == y
  {
    if y > 0 {
      RowLinksSize(v, nx, ny, x, y - 1);
    }
  }

  /** The links one complete column x < Nx contributes: 4*Ny in the dense variant,
      2*Ny + 1 in the sparse one. */
  function ColumnCount(v: Variant, ny: nat): nat
  {
    if v == Dense then 4 * ny else 2 * ny + 1
  }

  lemma ColumnSize(v: Variant, nx: nat, ny: nat, x: int)
    requires 0 <= x < nx && ny > 0
    ensures |RowLinks(v, nx, ny, x, ny + 1)| == ColumnCount(v, ny)
  {
    RowLinksSize(v, nx, ny, x, ny);
    assert RowLinks(v, nx, ny, x, ny + 1) == RowLinks(v, nx, ny, x, ny) + CellLinks(v, nx, ny, x, ny);
  }

  lemma {:induction false} LoopLinksSize(v: Variant, nx: nat, ny: nat, x: nat)
    requires x <= nx && ny > 0
    ensures |LoopLinks(v, nx, ny, x)| == x * ColumnCount(v, ny)
  {
    if x > 0 {
      var c := ColumnCount(v, ny);
      LoopLinksSize(v, nx, ny, x - 1);
      ColumnSize(v, nx, ny, x - 1);
      assert x * c == (x - 1) * c + c;
    }
  }

  /** Links splits into the complete columns 0 .. Nx-1 and the last column, whose
      iteration y == Ny creates nothing. */
  lemma LinksSize(v: Variant, nx: nat, ny: nat)
    requires ny > 0
    ensures |Links(v, nx, ny)| == nx * ColumnCount(v, ny) + ny
  {
    assert Links(v, nx, ny) == LoopLinks(v, nx, ny, nx) + RowLinks(v, nx, ny, nx, ny + 1);
    assert RowLinks(v, nx, ny, nx, ny + 1) == RowLinks(v, nx, ny, nx, ny) + CellLinks(v, nx, ny, nx, ny);
    LoopLinksSize(v, nx, ny, nx);
    RowLinksSize(v, nx, ny, nx, ny);
  }

  /** The dense loops create 4*Nx*Ny + Ny constraints, the sparse ones
      Nx*(Ny+1) + Ny*(Nx+1). */
  lemma LinksCount(nx: nat, ny: nat)
    requires ny > 0
    ensures |Links(Dense, nx, ny)| == 4 * nx * ny + ny
    ensures |Links(Sparse, nx, ny)| == nx * (ny + 1) + ny * (nx + 1)
  {
    LinksSize(Dense, nx, ny);
    LinksSize(Sparse, nx, ny);
    assert nx * (4 * ny) == 4 * nx * ny;
    assert nx * (2 * ny + 1) + ny == nx * (ny + 1) + ny * (nx + 1);
  }

  /** A body a distance constraint attaches to: a cloth particle or one of the anchors. */
  datatype Endpoint = OnParticle(cell: Cell) | OnAnchor(index: nat)

  /** A distance constraint with the square of its rest length. */
  datatype Constraint = Constraint(a: Endpoint, b: Endpoint, restSq: real)

  predicate InGrid<T>(ps: seq<seq<T>>, c: Cell)
  {
    0 <= c.x < |ps| && 0 <= c.y < |ps[c.x]|
  }

  /** connectParticles: the rest length is the distance between the two bodies' current
      positions, captured once when the constraint is created. */
  function Connect(ps: seq<seq<Body>>, l: Link): Constraint
    requires InGrid(ps, From(l)) && InGrid(ps, To(l))
  {
    Constraint(OnParticle(From(l)), OnParticle(To(l)),
               DistSq(ps[l.x][l.y].position, ps[To(l).x][To(l).y].position))
  }

  /** c is the constraint connectParticles creates for l. */
  predicate ConnectsLink(ps: seq<seq<Body>>, l: Link, c: Constraint)
  {
    InGrid(ps, From(l)) && InGrid(ps, To(l)) && c == Connect(ps, l)
  }

  /** cs is the list of constraints connectParticles creates for ls, one per link, in order. */
  predicate Connects(ps: seq<seq<Body>>, ls: seq<Link>, cs: seq<Constraint>)
  {
    |cs| == |ls| && forall i :: 0 <= i < |ls| ==> ConnectsLink(ps, ls[i], cs[i])
  }

  lemma ConnectsConcat(ps: seq<seq<Body>>, ls: seq<Link>, cs: seq<Constraint>, ms: seq<Link>, ds: seq<Constraint>)
    requires Connects(ps, ls, cs) && Connects(ps, ms, ds)
    ensures Connects(ps, ls + ms, cs + ds)
  {
    forall i | 0 <= i < |ls + ms|
      ensures ConnectsLink(ps, (ls + ms)[i], (cs + ds)[i])
    {
      if i >= |ls| {
        assert (ls + ms)[i] == ms[i - |ls|];
      }
    }
  }

  /** The constraint loops of both sketches: every cell (x, y) of the lattice, column by
      column, connects to its neighbours as CellLinks lists. */
  method BuildConstraints(v: Variant, ps: seq<seq<Body>>, nx: nat, ny: nat) returns (cs: seq<Constraint>)
    requires IsGrid(ps, nx, ny)
    ensures Connects(ps, Links(v, nx, ny), cs)
  {
    cs := [];
    var x := 0;
    while x <= nx
      invariant 0 <= x <= nx + 1
      invariant Connects(ps, LoopLinks(v, nx, ny, x), cs)
    {
      var ds := ConnectColumn(v, ps, nx, ny, x);
      ConnectsConcat(ps, LoopLinks(v, nx, ny, x), cs, RowLinks(v, nx, ny, x, ny + 1), ds);
      cs := cs + ds;
      x := x + 1;
    }
  }

  /** The inner loop of the constraint loops: column x, row by row. */
  method ConnectColumn(v: Variant, ps: seq<seq<Body>>, nx: nat, ny: nat, x: nat) returns (ds: seq<Constraint>)
    requires IsGrid(ps, nx, ny) && x <= nx
    ensures Connects(ps, RowLinks(v, nx, ny, x, ny + 1), ds)
  {
    ds := [];
    var y := 0;
    while y <= ny
      invariant 0 <= y <= ny + 1
      invariant Connects(ps, RowLinks(v, nx, ny, x, y), ds)
    {
      var es := ConnectCell(v, ps, nx, ny, x, y);
      ConnectsConcat(ps, RowLinks(v, nx, ny, x, y), ds, CellLinks(v, nx, ny, x, y), es);
      ds := ds + es;
      y := y + 1;
    }
  }

  /** The body of iteration (x, y) of the constraint loops: the connectParticles calls
      it makes, in order. */
  method ConnectCell(v: Variant, ps: seq<seq<Body>>, nx: nat, ny: nat, x: nat, y: nat) returns (ds: seq<Constraint>)
    requires IsGrid(ps, nx, ny) && x <= nx && y <= ny
    ensures Connects(ps, CellLinks(v, nx, ny, x, y), ds)
  {
    ds := [];
    if x < nx && y < ny {
      ds := ds + [Connect(ps, Link(x, y, Vertical))];
      ds := ds + [Connect(ps, Link(x, y, Horizontal))];
      if v == Dense {
        ds := ds + [Connect(ps, Link(x, y, Diagonal))];
        if y > 0 {
          ds := ds + [Connect(ps, Link(x, y, AntiDiagonal))];
        }
      }
    } else if x == nx && y < ny {
      ds := ds + [Connect(ps, Link(x, y, Vertical))];
    } else if x < nx && y == ny {
      ds := ds + [Connect(ps, Link(x, y, Horizontal))];
    }
  }

  /** Squared rest length a link gets on the hanging lattice. */
  function LatticeRestSq(cfg: Config, d: Dir): real
    requires cfg.Valid()
  {
    var rx, ry := cfg.RestDistanceX(), cfg.RestDistanceY();
    match d
    case Horizontal => rx * rx
    case Vertical => ry * ry
    case Diagonal => rx * rx + ry * ry
    case AntiDiagonal => rx * rx + ry * ry
  }

  /** Built on the hanging lattice, a horizontal constraint rests at restDistanceX and a
      vertical one at restDistanceY (squared here); every rest length is positive, so no
      constraint joins two coincident particles. */
  lemma LatticeRestLengths(cfg: Config, v: Variant, ps: seq<seq<Body>>, cs: seq<Constraint>)
    requires cfg.Valid() && IsHangingGrid(cfg, ps) && Connects(ps, Links(v, cfg.nx, cfg.ny), cs)
    ensures forall i :: 0 <= i < |cs| ==> cs[i].restSq == LatticeRestSq(cfg, Links(v, cfg.nx, cfg.ny)[i].dir)
    ensures forall i :: 0 <= i < |cs| ==> cs[i].restSq > 0.0
  {
    var ls := Links(v, cfg.nx, cfg.ny);
    LinksInLattice(v, cfg.nx, cfg.ny);
    forall i | 0 <= i < |cs|
      ensures cs[i].restSq == LatticeRestSq(cfg, ls[i].dir) && cs[i].restSq > 0.0
    {
      assert ls[i] in ls;
      LinkRestSq(cfg, ps, ls[i]);
    }
  }

  lemma LinkRestSq(cfg: Config, ps: seq<seq<Body>>, l: Link)
    requires cfg.Valid() && IsHangingGrid(cfg, ps)
    requires cfg.InLattice(From(l)) && cfg.InLattice(To(l))
    ensures Connect(ps, l).restSq == LatticeRestSq(cfg, l.dir) > 0.0
  {
    var t := To(l);
    assert ps[l.x][l.y] == InitialBody(cfg, l.x, l.y);
    assert ps[t.x][t.y] == InitialBody(cfg, t.x, t.y);
    HangingRestSq(cfg, l);
    LatticeRestSqPositive(cfg, l.dir);
  }

  /** The squared distance of a link's two particles on the hanging lattice. */
  lemma HangingRestSq(cfg: Config, l: Link)
    requires cfg.Valid()
    ensures DistSq(HangingPosition(cfg, l.x, l.y), HangingPosition(cfg, To(l).x, To(l).y)) == LatticeRestSq(cfg, l.dir)
  {
    NeighbourDistances(cfg, l.x, l.y);
  }

  lemma LatticeRestSqPositive(cfg: Config, d: Dir)
    requires cfg.Valid()
    ensures LatticeRestSq(cfg, d) > 0.0
  {
    var rx, ry := cfg.RestDistanceX(), cfg.RestDistanceY();
    assert rx * rx > 0.0 && ry * ry > 0.0;
  }
}
