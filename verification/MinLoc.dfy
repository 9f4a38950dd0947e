/** The pattern search for the grid location whose interpolated point is nearest to a target. */
module MinLoc {
  import opened Geometry

  /** A grid of points, row by row. */
  datatype Grid = Grid(cols: nat, rows: nat, cells: seq<seq<Vec3>>) {
    predicate Valid() {
      |cells| == rows && forall y | 0 <= y < rows :: |cells[y]| == cols
    }
  }

  const FAILED := Vec3(-1.0, -1.0, -1.0)

  function Blend(a: Vec3, b: Vec3, f: real): Vec3 {
    Vec3((1.0 - f) * a.x + f * b.x, (1.0 - f) * a.y + f * b.y, (1.0 - f) * a.z + f * b.z)
  }

  /** The rectangle of width w and height h with corner (1, 1) contains p. */
  predicate Contains(w: int, h: int, p: Vec2) {
    1 <= Trunc(p.x) < 1 + w && 1 <= Trunc(p.y) < 1 + h
  }

  /** Bilinear interpolation between the four cells around p. */
  function At(g: Grid, p: Vec2): Vec3
    requires g.Valid() && Contains(g.cols - 2, g.rows - 2, p)
  {
    var x, y := Trunc(p.x), Trunc(p.y);
    var fx, fy := p.x - x as real, p.y - y as real;
    Blend(Blend(g.cells[y][x], g.cells[y][x + 1], fx), Blend(g.cells[y + 1][x], g.cells[y + 1][x + 1], fx), fy)
  }

  /** Squared distance. */
  function Sdist(a: Vec3, b: Vec3): real {
    (a.x - b.x) * (a.x - b.x) + (a.y - b.y) * (a.y - b.y) + (a.z - b.z) * (a.z - b.z)
  }

  /** The distances of two steps at right angles add up, and along an axis the distance is the square of the step: by
      these laws it is the squared distance. */
  lemma SdistLaws(a: Vec3, b: Vec3, c: Vec3, d: real)
    ensures (a.x - b.x) * (c.x - b.x) + (a.y - b.y) * (c.y - b.y) + (a.z - b.z) * (c.z - b.z) == 0.0
            ==> Sdist(a, c) == Sdist(a, b) + Sdist(b, c)
    ensures Sdist(a, a.(x := a.x + d)) == Sdist(a, a.(y := a.y + d)) == Sdist(a, a.(z := a.z + d)) == d * d
  {
    RightAngle(a.x - b.x, c.x - b.x);
    RightAngle(a.y - b.y, c.y - b.y);
    RightAngle(a.z - b.z, c.z - b.z);
    assert a.x - c.x == (a.x - b.x) - (c.x - b.x) && a.y - c.y == (a.y - b.y) - (c.y - b.y);
    assert a.z - c.z == (a.z - b.z) - (c.z - b.z);
  }

  lemma RightAngle(u: real, v: real)
    ensures (u - v) * (u - v) == u * u + v * v - 2.0 * (u * v)
  {}

  /** One coordinate of a bilinear function of the plane. */
  function Bilinear1(a: real, b: real, c: real, d: real, x: real, y: real): real {
    a + x * b + y * (c + x * d)
  }

  function Bilinear(a: Vec3, b: Vec3, c: Vec3, d: Vec3, x: real, y: real): Vec3 {
    Vec3(Bilinear1(a.x, b.x, c.x, d.x, x, y), Bilinear1(a.y, b.y, c.y, d.y, x, y), Bilinear1(a.z, b.z, c.z, d.z, x, y))
  }

  /** Wherever the four cells around p are values of a bilinear function, and any four cells are, the interpolation is its
      value at p: linear along both axes, with each fraction on its own axis. */
  lemma AtIsBilinear(g: Grid, p: Vec2, a: Vec3, b: Vec3, c: Vec3, d: Vec3)
    requires g.Valid() && Contains(g.cols - 2, g.rows - 2, p)
    requires var x, y := Trunc(p.x), Trunc(p.y);
             && g.cells[y][x] == Bilinear(a, b, c, d, x as real, y as real)
             && g.cells[y][x + 1] == Bilinear(a, b, c, d, (x + 1) as real, y as real)
             && g.cells[y + 1][x] == Bilinear(a, b, c, d, x as real, (y + 1) as real)
             && g.cells[y + 1][x + 1] == Bilinear(a, b, c, d, (x + 1) as real, (y + 1) as real)
    ensures At(g, p) == Bilinear(a, b, c, d, p.x, p.y)
  {
    hide Bilinear, Blend, Trunc;
    var x, y := Trunc(p.x) as real, Trunc(p.y) as real;
    assert (Trunc(p.x) + 1) as real == x + 1.0 && (Trunc(p.y) + 1) as real == y + 1.0;
    BilinearBlend(a, b, c, d, x, y, p.x - x, p.y - y);
    assert x + (p.x - x) == p.x && y + (p.y - y) == p.y;
  }

  lemma BilinearBlend(a: Vec3, b: Vec3, c: Vec3, d: Vec3, x: real, y: real, fx: real, fy: real)
    ensures var v0 := Blend(Bilinear(a, b, c, d, x, y), Bilinear(a, b, c, d, x + 1.0, y), fx);
            var v1 := Blend(Bilinear(a, b, c, d, x, y + 1.0), Bilinear(a, b, c, d, x + 1.0, y + 1.0), fx);
            Blend(v0, v1, fy) == Bilinear(a, b, c, d, x + fx, y + fy)
  {
    hide Bilinear1;
    BilinearMix(a.x, b.x, c.x, d.x, x, y, fx, fy);
    BilinearMix(a.y, b.y, c.y, d.y, x, y, fx, fy);
    BilinearMix(a.z, b.z, c.z, d.z, x, y, fx, fy);
  }

  /** Any four values around a cell are those of a bilinear function, one coordinate at a time. */
  lemma AlwaysBilinear(x: real, y: real, v00: real, v01: real, v10: real, v11: real) returns (a: real, b: real, c: real, d: real)
    ensures Bilinear1(a, b, c, d, x, y) == v00 && Bilinear1(a, b, c, d, x + 1.0, y) == v01
    ensures Bilinear1(a, b, c, d, x, y + 1.0) == v10 && Bilinear1(a, b, c, d, x + 1.0, y + 1.0) == v11
  {
    d := v00 - v01 - v10 + v11;
    b := v01 - v00 - y * d;
    c := v10 - v00 - x * d;
    a := v00 - x * b - y * (c + x * d);
    assert (x + 1.0) * b == x * b + b && (x + 1.0) * d == x * d + d;
    assert y * (c + x * d + d) == y * (c + x * d) + y * d;
    assert (y + 1.0) * (c + x * d) == y * (c + x * d) + (c + x * d);
    assert (y + 1.0) * (c + x * d + d) == y * (c + x * d + d) + (c + x * d + d);
  }

  lemma BilinearMix(a: real, b: real, c: real, d: real, x: real, y: real, fx: real, fy: real)
    ensures var v0 := (1.0 - fx) * Bilinear1(a, b, c, d, x, y) + fx * Bilinear1(a, b, c, d, x + 1.0, y);
            var v1 := (1.0 - fx) * Bilinear1(a, b, c, d, x, y + 1.0) + fx * Bilinear1(a, b, c, d, x + 1.0, y + 1.0);
            (1.0 - fy) * v0 + fy * v1 == Bilinear1(a, b, c, d, x + fx, y + fy)
  {
    BilinearInX(a, b, c, d, x, y);
    BilinearInX(a, b, c, d, x + 1.0, y);
    BilinearInX(a, b, c, d, x, y + 1.0);
    BilinearInX(a, b, c, d, x + 1.0, y + 1.0);
    MixLinear(a + y * c, b + y * d, x, fx);
    MixLinear(a + (y + 1.0) * c, b + (y + 1.0) * d, x, fx);
    BilinearInX(a, b, c, d, x + fx, y);
    BilinearInX(a, b, c, d, x + fx, y + 1.0);
    MixLinear(a + (x + fx) * b, c + (x + fx) * d, y, fy);
  }

  lemma BilinearInX(a: real, b: real, c: real, d: real, x: real, y: real)
    ensures Bilinear1(a, b, c, d, x, y) == (a + y * c) + x * (b + y * d)
  {
    assert y * (x * d) == x * (y * d);
  }

  /** Mixing two neighbouring values of a linear function gives its value in between. */
  lemma MixLinear(a: real, b: real, x: real, f: real)
    ensures (1.0 - f) * (a + x * b) + f * (a + (x + 1.0) * b) == a + (x + f) * b
  {
    assert (x + 1.0) * b == x * b + b;
    var v := a + x * b;
    assert f * (v + b) == f * v + f * b;
  }

  /** At a cell the interpolation is the cell itself. */
  lemma AtCell(g: Grid, x: int, y: int)
    requires g.Valid() && Contains(g.cols - 2, g.rows - 2, Vec2(x as real, y as real))
    ensures 1 <= x < g.cols - 1 && 1 <= y < g.rows - 1
    ensures At(g, Vec2(x as real, y as real)) == g.cells[y][x]
  {
    assert (x as real).Floor == x && (y as real).Floor == y;
  }

  predicate Within(v: Vec3, lo: Vec3, hi: Vec3) {
    lo.x <= v.x <= hi.x && lo.y <= v.y <= hi.y && lo.z <= v.z <= hi.z
  }

  lemma BlendWithin(a: Vec3, b: Vec3, f: real, lo: Vec3, hi: Vec3)
    requires Within(a, lo, hi) && Within(b, lo, hi) && 0.0 <= f <= 1.0
    ensures Within(Blend(a, b, f), lo, hi)
  {
    MixWithin(a.x, b.x, f, lo.x, hi.x);
    MixWithin(a.y, b.y, f, lo.y, hi.y);
    MixWithin(a.z, b.z, f, lo.z, hi.z);
  }

  lemma MixWithin(a: real, b: real, f: real, lo: real, hi: real)
    requires lo <= a <= hi && lo <= b <= hi && 0.0 <= f <= 1.0
    ensures lo <= (1.0 - f) * a + f * b <= hi
  {
    assert (1.0 - f) * (a - lo) >= 0.0 && f * (b - lo) >= 0.0;
    assert (1.0 - f) * (hi - a) >= 0.0 && f * (hi - b) >= 0.0;
  }

  /** An interpolated point lies in every box that holds the whole grid. */
  lemma AtWithin(g: Grid, p: Vec2, lo: Vec3, hi: Vec3)
    requires g.Valid() && Contains(g.cols - 2, g.rows - 2, p)
    requires forall y, x | 0 <= y < g.rows && 0 <= x < g.cols :: Within(g.cells[y][x], lo, hi)
    ensures Within(At(g, p), lo, hi)
  {
    hide Within, Blend;
    var x, y := Trunc(p.x), Trunc(p.y);
    var fx, fy := p.x - x as real, p.y - y as real;
    BlendWithin(g.cells[y][x], g.cells[y][x + 1], fx, lo, hi);
    BlendWithin(g.cells[y + 1][x], g.cells[y + 1][x + 1], fx, lo, hi);
    BlendWithin(Blend(g.cells[y][x], g.cells[y][x + 1], fx), Blend(g.cells[y + 1][x], g.cells[y + 1][x + 1], fx), fy, lo, hi);
  }

  // ----- the lattice of the search -----

  /** The step sizes in eighths, halved level times down to one. */
  function Units(level: nat): (u: int)
    ensures u >= 1
  {
    if level == 0 then 1 else 2 * Units(level - 1)
  }

  function StepOf(level: nat): real {
    Units(level) as real / 8.0
  }

  function LatticePoint(origin: Vec2, a: int, b: int): Vec2 {
    Vec2(origin.x + a as real / 8.0, origin.y + b as real / 8.0)
  }

  ghost predicate OnLattice(origin: Vec2, p: Vec2) {
    exists a: int, b: int :: LatticePoint(origin, a, b) == p
  }

  /** The neighbour of p in the direction of off. */
  function Candidate(p: Vec2, off: Vec2, step: real): Vec2 {
    Vec2(p.x + off.x * step, p.y + off.y * step)
  }

  const CROSS := [Vec2(0.0, -1.0), Vec2(0.0, 1.0), Vec2(-1.0, 0.0), Vec2(1.0, 0.0)]
  const LINE := [Vec2(1.0, 0.0), Vec2(-1.0, 0.0)]

  function SearchDirections(zSearch: bool): seq<Vec2> {
    if zSearch then CROSS else LINE
  }

  /** The places of the lattice inside the rectangle that cost less than best. */
  ghost function Better(cost: Vec2 -> real, w: nat, h: nat, origin: Vec2, best: real): set<(int, int)> {
    set a: int, b: int | -8 * w <= a <= 8 * w && -8 * h <= b <= 8 * h
                         && Contains(w, h, LatticePoint(origin, a, b)) && cost(LatticePoint(origin, a, b)) < best :: (a, b)
  }

  lemma StepHalves(level: nat)
    requires level > 0
    ensures StepOf(level) * 0.5 == StepOf(level - 1) && StepOf(level) > 0.125 && StepOf(0) == 0.125
  {
    assert Units(level) >= 2;
  }

  lemma CandidateOnLattice(origin: Vec2, p: Vec2, off: Vec2, level: nat)
    requires OnLattice(origin, p) && off in CROSS + LINE
    ensures OnLattice(origin, Candidate(p, off, StepOf(level)))
  {
    var a: int, b: int :| LatticePoint(origin, a, b) == p;
    var u := Units(level);
    var a' := if off.x == 1.0 then a + u else if off.x == -1.0 then a - u else a;
    var b' := if off.y == 1.0 then b + u else if off.y == -1.0 then b - u else b;
    assert LatticePoint(origin, a', b') == Candidate(p, off, StepOf(level));
  }

  lemma TruncBounds(x: real, w: int)
    requires 1 <= Trunc(x) < 1 + w
    ensures 1.0 <= x < (1 + w) as real
  {}

  /** Accepting a better candidate leaves strictly fewer better places. */
  lemma AcceptShrinks(cost: Vec2 -> real, w: nat, h: nat, origin: Vec2, best: real, cand: Vec2)
    requires Contains(w, h, origin) && Contains(w, h, cand) && OnLattice(origin, cand) && cost(cand) < best
    ensures Better(cost, w, h, origin, cost(cand)) < Better(cost, w, h, origin, best)
  {
    var a: int, b: int :| LatticePoint(origin, a, b) == cand;
    TruncBounds(origin.x, w);
    TruncBounds(origin.y, h);
    TruncBounds(cand.x, w);
    TruncBounds(cand.y, h);
    assert (a, b) in Better(cost, w, h, origin, best);
    assert (a, b) !in Better(cost, w, h, origin, cost(cand));
  }

  // ----- the search -----

  /** No neighbour of p at this step costs less. */
  predicate NoneBetter(cost: Vec2 -> real, w: nat, h: nat, p: Vec2, step: real, search: seq<Vec2>) {
    forall k | 0 <= k < |search| ::
      Contains(w, h, Candidate(p, search[k], step)) && cost(p) <= cost(Candidate(p, search[k], step))
  }

  /** What a search for the target may rely on between two rounds. */
  ghost predicate Searching(cost: Vec2 -> real, w: nat, h: nat, origin: Vec2, loc: Vec2, best: real) {
    Contains(w, h, origin) && Contains(w, h, loc) && OnLattice(origin, loc) && best == cost(loc) <= cost(origin)
  }

  lemma SearchStarts(cost: Vec2 -> real, w: nat, h: nat, origin: Vec2)
    requires Contains(w, h, origin)
    ensures Searching(cost, w, h, origin, origin, cost(origin))
  {
    assert LatticePoint(origin, 0, 0) == origin;
  }

  lemma SearchMoves(cost: Vec2 -> real, w: nat, h: nat, origin: Vec2, loc: Vec2, best: real, off: Vec2, level: nat)
    requires Searching(cost, w, h, origin, loc, best) && off in CROSS + LINE
    requires var cand := Candidate(loc, off, StepOf(level)); Contains(w, h, cand) && cost(cand) < best
    ensures var cand := Candidate(loc, off, StepOf(level));
            && Searching(cost, w, h, origin, cand, cost(cand))
            && Better(cost, w, h, origin, cost(cand)) < Better(cost, w, h, origin, best)
  {
    hide Contains, Better;
    CandidateOnLattice(origin, loc, off, level);
    AcceptShrinks(cost, w, h, origin, best, Candidate(loc, off, StepOf(level)));
  }

  /** One round over the directions: the better candidates are taken as they come. It fails at the rim. */
  method Round(cost: Vec2 -> real, w: nat, h: nat, ghost origin: Vec2, start: Vec2, search: seq<Vec2>, step: real, ghost level: nat)
    returns (loc: Vec2, best: real, changed: bool, inside: bool)
    requires search == CROSS || search == LINE
    requires step == StepOf(level) && Searching(cost, w, h, origin, start, cost(start))
    ensures Searching(cost, w, h, origin, loc, best) && best == cost(loc)
    ensures changed ==> Better(cost, w, h, origin, best) < Better(cost, w, h, origin, cost(start))
    ensures !changed ==> loc == start
    ensures inside && !changed ==> NoneBetter(cost, w, h, loc, step, search)
    ensures !inside ==> exists off :: off in search && !Contains(w, h, Candidate(loc, off, step))
  {
    hide Contains, Better, Searching, Candidate, StepOf;
    loc, best, changed, inside := start, cost(start), false, true;
    for k := 0 to |search|
      invariant Searching(cost, w, h, origin, loc, best) && best == cost(loc) && inside
      invariant changed ==> Better(cost, w, h, origin, best) < Better(cost, w, h, origin, cost(start))
      invariant !changed ==> loc == start && NoneBetter(cost, w, h, loc, step, search[..k])
    {
      var cand := Candidate(loc, search[k], step);
      if !Contains(w, h, cand) {
        inside := false;
        return;
      }
      var res := cost(cand);
      if res < best {
        assert search[k] in CROSS + LINE;
        SearchMoves(cost, w, h, origin, loc, best, search[k], level);
        changed, best, loc := true, res, cand;
      }
    }
    assert search[..|search|] == search;
  }

  /** The descent both searches share; it ends for every cost and every rectangle. */
  method Descend(cost: Vec2 -> real, w: nat, h: nat, origin: Vec2, zSearch: bool, ghost startLevel: nat, startStep: real)
    returns (loc: Vec2, inside: bool)
    requires startStep == StepOf(startLevel) && Contains(w, h, origin)
    ensures Searching(cost, w, h, origin, loc, cost(loc))
    ensures inside ==> NoneBetter(cost, w, h, loc, 0.125, SearchDirections(zSearch))
    ensures !inside ==> exists off, level: nat ::
              off in SearchDirections(zSearch) && level <= startLevel && !Contains(w, h, Candidate(loc, off, StepOf(level)))
  {
    hide Contains, Better, Searching, Candidate, StepOf, NoneBetter;
    SearchStarts(cost, w, h, origin);
    StepHalves(startLevel + 1);
    var search := SearchDirections(zSearch);
    var step, changed, best := startStep, true, cost(origin);
    ghost var level := startLevel;
    loc := origin;
    while changed
      invariant 0 <= level <= startLevel && step == StepOf(level)
      invariant Searching(cost, w, h, origin, loc, best) && best == cost(loc)
      invariant (!changed ==> NoneBetter(cost, w, h, loc, 0.125, search))
      decreases Better(cost, w, h, origin, best), level, changed
    {
      loc, best, changed, inside := Round(cost, w, h, origin, loc, search, step, level);
      if !inside {
        return;
      }
      if level > 0 {
        StepHalves(level);
      } else {
        StepHalves(1);
      }
      if !changed && step > 0.125 {
        step := step * 0.5;
        level := level - 1;
        changed := true;
      }
    }
    inside := true;
  }

  /** The cost of a location: the squared distance of its point from the target. */
  function CostAt(g: Grid, tgt: Vec3): Vec2 -> real
    requires g.Valid()
  {
    p => if Contains(g.cols - 2, g.rows - 2, p) then Sdist(At(g, p), tgt) else 0.0
  }

  predicate Inside(g: Grid, p: Vec2) {
    Contains(g.cols - 2, g.rows - 2, p)
  }

  /** The interpolated point at p is no nearer to the target than out. */
  predicate NotNearer(g: Grid, p: Vec2, out: Vec3, tgt: Vec3)
    requires g.Valid()
  {
    Inside(g, p) && Sdist(out, tgt) <= Sdist(At(g, p), tgt)
  }

  /** The neighbours of a search are those to the left and right, and above and below if it goes in z as well. */
  lemma NeighboursAre(p: Vec2, zSearch: bool, step: real)
    ensures Vec2(1.0, 0.0) in SearchDirections(zSearch) && Vec2(-1.0, 0.0) in SearchDirections(zSearch)
    ensures zSearch ==> Vec2(0.0, 1.0) in SearchDirections(zSearch) && Vec2(0.0, -1.0) in SearchDirections(zSearch)
    ensures Candidate(p, Vec2(1.0, 0.0), step) == Vec2(p.x + step, p.y)
    ensures Candidate(p, Vec2(-1.0, 0.0), step) == Vec2(p.x - step, p.y)
    ensures Candidate(p, Vec2(0.0, 1.0), step) == Vec2(p.x, p.y + step)
    ensures Candidate(p, Vec2(0.0, -1.0), step) == Vec2(p.x, p.y - step)
    ensures |SearchDirections(zSearch)| == if zSearch then 4 else 2
  {
    assert CROSS[0] == Vec2(0.0, -1.0) && CROSS[1] == Vec2(0.0, 1.0) && CROSS[2] == Vec2(-1.0, 0.0) && CROSS[3] == Vec2(1.0, 0.0);
    assert LINE[0] == Vec2(1.0, 0.0) && LINE[1] == Vec2(-1.0, 0.0);
  }

  /** The search from loc for the point nearest to tgt. If it completes, out is the interpolated point at
      the location found, no farther from the target than at the start, and no neighbour at an eighth of a
      cell is nearer; if it meets the rim, out is the failure mark and the location is still no worse. */
  method MinLoc(g: Grid, loc: Vec2, tgt: Vec3, zSearch: bool) returns (loc': Vec2, out: Vec3, completed: bool)
    requires g.Valid()
    ensures !Inside(g, loc) ==> loc' == loc && !completed
    ensures Inside(g, loc) ==> Inside(g, loc') && OnLattice(loc, loc') && Sdist(At(g, loc'), tgt) <= Sdist(At(g, loc), tgt)
    ensures !completed ==> out == FAILED
    ensures Inside(g, loc) && !completed ==> exists off, level: nat ::
              off in SearchDirections(zSearch) && level <= 3 && !Inside(g, Candidate(loc', off, StepOf(level)))
    ensures completed ==>
              && NotNearer(g, Vec2(loc'.x + 0.125, loc'.y), out, tgt) && NotNearer(g, Vec2(loc'.x - 0.125, loc'.y), out, tgt)
              && (zSearch ==> && NotNearer(g, Vec2(loc'.x, loc'.y + 0.125), out, tgt)
                              && NotNearer(g, Vec2(loc'.x, loc'.y - 0.125), out, tgt))
    ensures completed ==>
              && Inside(g, loc) && out == At(g, loc')
              && forall off | off in SearchDirections(zSearch) ::
                   && Inside(g, Candidate(loc', off, 0.125))
                   && Sdist(out, tgt) <= Sdist(At(g, Candidate(loc', off, 0.125)), tgt)
  {
    hide Candidate, StepOf, OnLattice, At, Sdist;
    loc', out, completed := loc, FAILED, false;
    if !Contains(g.cols - 2, g.rows - 2, loc) {
      return;
    }
    var w, h, cost := g.cols - 2, g.rows - 2, CostAt(g, tgt);
    StepIsOne();
    loc', completed := Descend(cost, w, h, loc, zSearch, 3, 1.0);
    if completed {
      out := At(g, loc');
      forall off | off in SearchDirections(zSearch)
        ensures Inside(g, Candidate(loc', off, 0.125))
        ensures Sdist(out, tgt) <= Sdist(At(g, Candidate(loc', off, 0.125)), tgt)
      {
        var k :| 0 <= k < |SearchDirections(zSearch)| && SearchDirections(zSearch)[k] == off;
      }
      NeighboursAre(loc', zSearch, 0.125);
    }
  }

  lemma StepIsOne()
    ensures StepOf(3) == 1.0
  {
    assert Units(1) == 2 && Units(2) == 4;
  }

  lemma StepIsSixteen()
    ensures StepOf(7) == 16.0
  {
    assert Units(1) == 2 && Units(2) == 4 && Units(3) == 8 && Units(4) == 16 && Units(5) == 32 && Units(6) == 64;
  }

  /** The cost of a location when points are looked up by value and judged by measure. */
  function Measured(value: Vec2 -> Vec3, measure: Vec3 -> real): Vec2 -> real {
    p => measure(value(p))
  }

  /** The search by distances to several targets: any look-up and measure, a rectangle one wider, and coarser first
      steps. It ends too, with the point at the location found; at the rim location and point are lost. */
  method MinLocByDistances(value: Vec2 -> Vec3, measure: Vec3 -> real, cols: nat, rows: nat, loc: Vec2, zSearch: bool)
    returns (loc': Vec2, out: Vec3, completed: bool)
    ensures var cost := Measured(value, measure);
            completed ==>
              && Contains(cols - 1, rows - 1, loc) && OnLattice(loc, loc') && measure(out) <= measure(value(loc))
              && out == value(loc')
              && NoneBetter(cost, cols - 1, rows - 1, loc', 0.125, SearchDirections(zSearch))
    ensures var cost := Measured(value, measure);
            Contains(cols - 1, rows - 1, loc) && !completed ==> exists p, off, level: nat ::
              && OnLattice(loc, p) && cost(p) <= cost(loc) && off in SearchDirections(zSearch) && level <= 7
              && !Contains(cols - 1, rows - 1, Candidate(p, off, StepOf(level)))
    ensures !completed ==> loc' == (if Contains(cols - 1, rows - 1, loc) then Vec2(-1.0, -1.0) else loc) && out == FAILED
  {
    hide NoneBetter, OnLattice;
    if !Contains(cols - 1, rows - 1, loc) {
      return loc, FAILED, false;
    }
    StepIsSixteen();
    var cost := Measured(value, measure);
    loc', completed := Descend(cost, cols - 1, rows - 1, loc, zSearch, 7, 16.0);
    assert OnLattice(loc, loc') && cost(loc') <= cost(loc);
    out := value(loc');
    if !completed {
      loc', out := Vec2(-1.0, -1.0), FAILED;
    }
  }
}
