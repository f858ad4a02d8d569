/** The cloth construction each sketch performs at setup: particles, lattice constraints,
    anchors and (in the dense sketch) the four tethers, in that order. */
module Setup {
  import opened Lattice
  import opened Topology
  import opened Anchors

  /** Every endpoint names an existing body: a lattice particle or one of the anchors. */
  predicate EndpointValid(cfg: Config, anchorCount: nat, e: Endpoint)
  {
    match e
    case OnParticle(c) => cfg.InLattice(c)
    case OnAnchor(k) => k < anchorCount
  }

  /** Setup of the dense sketch: lattice constraints with diagonals, then four tethers of
      length anchorDistance = 2 from the particles around the centre to the anchors. */
  method SetupDense(cfg: Config) returns (particles: seq<seq<Body>>, anchors: seq<Anchor>, constraints: seq<Constraint>)
    requires cfg.Valid() && cfg.nx >= 2 && cfg.ny >= 2
    ensures IsHangingGrid(cfg, particles)
    ensures |anchors| == 4
    ensures forall k :: 0 <= k < 4 ==> anchors[k] == Anchor(TetherAnchorPoints(cfg.floor)[k], 0.0)
    ensures |constraints| == 4 * cfg.nx * cfg.ny + cfg.ny + 4
    ensures Connects(particles, Links(Dense, cfg.nx, cfg.ny), constraints[..|constraints| - 4])
    ensures forall i :: 0 <= i < |constraints| ==>
      EndpointValid(cfg, 4, constraints[i].a) && EndpointValid(cfg, 4, constraints[i].b)
    ensures forall k, i :: 0 <= k < 4 && 0 <= i < |constraints| ==>
      ((constraints[i].a == OnParticle(TetheredCells(cfg.nx, cfg.ny)[k]) && constraints[i].b.OnAnchor?)
       <==> i == |constraints| - 4 + k)
    ensures forall k :: 0 <= k < 4 ==>
      constraints[|constraints| - 4 + k] == Constraint(OnParticle(TetheredCells(cfg.nx, cfg.ny)[k]), OnAnchor(k), TetherLength * TetherLength)
  {
    particles := PlaceParticles(cfg);
    var lattice := BuildConstraints(Dense, particles, cfg.nx, cfg.ny);
    anchors := CreateAnchors(TetherAnchorPoints(cfg.floor));
    var tethers := AttachTethers(TetheredCells(cfg.nx, cfg.ny), anchors, TetherLength);
    constraints := lattice + tethers;
    LinksCount(cfg.nx, cfg.ny);
    LinksInLattice(Dense, cfg.nx, cfg.ny);
    TetheredCellsValid(cfg.nx, cfg.ny);
    assert constraints[..|constraints| - 4] == lattice;
    LatticeEndpoints(cfg, Dense, particles, lattice);
  }

  /** Setup of the sparse sketch: structural constraints only; four anchors on the corners,
      none of them tied to the cloth because the tether code is disabled. */
  method SetupSparse(cfg: Config) returns (particles: seq<seq<Body>>, anchors: seq<Anchor>, constraints: seq<Constraint>)
    requires cfg.Valid()
    ensures IsHangingGrid(cfg, particles)
    ensures |anchors| == 4
    ensures forall k :: 0 <= k < 4 ==> anchors[k] == Anchor(CornerAnchorPoints(cfg)[k], 0.0)
    ensures |constraints| == cfg.nx * (cfg.ny + 1) + cfg.ny * (cfg.nx + 1)
    ensures Connects(particles, Links(Sparse, cfg.nx, cfg.ny), constraints)
    ensures forall i :: 0 <= i < |constraints| ==>
      constraints[i].a.OnParticle? && constraints[i].b.OnParticle? &&
      EndpointValid(cfg, 0, constraints[i].a) && EndpointValid(cfg, 0, constraints[i].b)
  {
    particles := PlaceParticles(cfg);
    constraints := BuildConstraints(Sparse, particles, cfg.nx, cfg.ny);
    anchors := CreateAnchors(CornerAnchorPoints(cfg));
    LinksCount(cfg.nx, cfg.ny);
    LatticeEndpoints(cfg, Sparse, particles, constraints);
  }

  /** Lattice constraints join two particles of the lattice and no anchor. */
  lemma LatticeEndpoints(cfg: Config, v: Variant, ps: seq<seq<Body>>, cs: seq<Constraint>)
    requires cfg.Valid() && Connects(ps, Links(v, cfg.nx, cfg.ny), cs)
    ensures forall i :: 0 <= i < |cs| ==>
      cs[i].a.OnParticle? && cs[i].b.OnParticle? &&
      cfg.InLattice(cs[i].a.cell) && cfg.InLattice(cs[i].b.cell)
  {
    var ls := Links(v, cfg.nx, cfg.ny);
    LinksInLattice(v, cfg.nx, cfg.ny);
    forall i | 0 <= i < |cs|
      ensures cs[i].a == OnParticle(From(ls[i])) && cs[i].b == OnParticle(To(ls[i]))
      ensures cfg.InLattice(From(ls[i])) && cfg.InLattice(To(ls[i]))
    {
      assert ConnectsLink(ps, ls[i], cs[i]);
      assert ls[i] in ls;
    }
  }
}
