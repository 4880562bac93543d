/**
 * The integer part of the hexagonal map (store/src/map/mod.rs): cube
 * coordinates with their addition and subtraction, the neighbour and
 * diagonal direction tables, the distance between two hexagons and the
 * enumeration of coordinates that builds a map from a radius.
 *
 * The Rust fields are `i32`; here they are unbounded integers, so overflow in
 * `Add`, `Sub`, `Hexagon::distance` and `new_from_axial` is not modelled.
 */
module HexGrid {
  import opened Wrappers

  /** A position on the hexagonal grid, as three cube axes. */
  datatype CubeCoords = CubeCoords(q: int, r: int, s: int)

  const Origin := CubeCoords(0, 0, 0)

  /** The cube constraint: a coordinate names a hexagon when its axes sum to zero. */
  predicate OnGrid(c: CubeCoords) {
    c.q + c.r + c.s == 0
  }

  function Abs(x: int): nat {
    if x < 0 then -x else x
  }

  /** Twice the number of steps from the origin to `c` when `c` is on the grid. */
  function Norm(c: CubeCoords): nat {
    Abs(c.q) + Abs(c.r) + Abs(c.s)
  }

  /** `impl Add for CubeCoords`: componentwise sum. */
  function Add(a: CubeCoords, b: CubeCoords): (c: CubeCoords)
    ensures OnGrid(a) && OnGrid(b) ==> OnGrid(c)
  {
    CubeCoords(a.q + b.q, a.r + b.r, a.s + b.s)
  }

  /** `impl Sub for CubeCoords`: componentwise difference. */
  function Sub(a: CubeCoords, b: CubeCoords): (d: CubeCoords)
    ensures OnGrid(a) && OnGrid(b) ==> OnGrid(d)
    ensures d == Origin <==> a == b
  {
    CubeCoords(a.q - b.q, a.r - b.r, a.s - b.s)
  }

  /** Subtraction undoes addition and addition undoes subtraction. */
  lemma AddSubInverse(a: CubeCoords, b: CubeCoords)
    ensures Sub(Add(a, b), b) == a
    ensures Add(Sub(a, b), b) == a
  {
  }

  /** `CUBE_NEIGHBORS`: the six directions to an adjacent hexagon. */
  const CubeNeighbors: seq<CubeCoords> := [
    CubeCoords(1, 0, -1),
    CubeCoords(1, -1, 0),
    CubeCoords(0, -1, 1),
    CubeCoords(-1, 0, 1),
    CubeCoords(-1, 1, 0),
    CubeCoords(0, 1, -1)
  ]

  /** `CUBE_DIAGONALS`: the six directions to a diagonal hexagon. */
  const CubeDiagonals: seq<CubeCoords> := [
    CubeCoords(2, -1, -1),
    CubeCoords(1, -2, 1),
    CubeCoords(-1, -1, 2),
    CubeCoords(-2, 1, 1),
    CubeCoords(-1, 2, -1),
    CubeCoords(1, 1, -2)
  ]

  /** Every neighbour direction is on the grid, one step long, and the opposite
    * direction sits three entries further round the table. */
  lemma NeighborTable(i: nat)
    requires i < 6
    ensures |CubeNeighbors| == 6
    ensures OnGrid(CubeNeighbors[i]) && Norm(CubeNeighbors[i]) == 2
    ensures Add(CubeNeighbors[i], CubeNeighbors[(i + 3) % 6]) == Origin
  {
    if i == 0 {
      assert (i + 3) % 6 == 3;
      assert CubeNeighbors[0] == CubeCoords(1, 0, -1) && CubeNeighbors[3] == CubeCoords(-1, 0, 1);
    } else if i == 1 {
      assert (i + 3) % 6 == 4;
      assert CubeNeighbors[1] == CubeCoords(1, -1, 0) && CubeNeighbors[4] == CubeCoords(-1, 1, 0);
    } else if i == 2 {
      assert (i + 3) % 6 == 5;
      assert CubeNeighbors[2] == CubeCoords(0, -1, 1) && CubeNeighbors[5] == CubeCoords(0, 1, -1);
    } else if i == 3 {
      assert (i + 3) % 6 == 0;
      assert CubeNeighbors[3] == CubeCoords(-1, 0, 1) && CubeNeighbors[0] == CubeCoords(1, 0, -1);
    } else if i == 4 {
      assert (i + 3) % 6 == 1;
      assert CubeNeighbors[4] == CubeCoords(-1, 1, 0) && CubeNeighbors[1] == CubeCoords(1, -1, 0);
    } else {
      assert (i + 3) % 6 == 2;
      assert CubeNeighbors[5] == CubeCoords(0, 1, -1) && CubeNeighbors[2] == CubeCoords(0, -1, 1);
    }
  }

  /** Every diagonal direction is on the grid, two steps long, and is the sum
    * of two consecutive neighbour directions. */
  lemma DiagonalTable(i: nat)
    requires i < 6
    ensures |CubeDiagonals| == 6
    ensures OnGrid(CubeDiagonals[i]) && Norm(CubeDiagonals[i]) == 4
    ensures CubeDiagonals[i] == Add(CubeNeighbors[i], CubeNeighbors[(i + 1) % 6])
  {
    if i == 0 {
      assert (i + 1) % 6 == 1;
      assert CubeDiagonals[0] == CubeCoords(2, -1, -1);
      assert CubeNeighbors[0] == CubeCoords(1, 0, -1) && CubeNeighbors[1] == CubeCoords(1, -1, 0);
    } else if i == 1 {
      assert (i + 1) % 6 == 2;
      assert CubeDiagonals[1] == CubeCoords(1, -2, 1);
      assert CubeNeighbors[1] == CubeCoords(1, -1, 0) && CubeNeighbors[2] == CubeCoords(0, -1, 1);
    } else if i == 2 {
      assert (i + 1) % 6 == 3;
      assert CubeDiagonals[2] == CubeCoords(-1, -1, 2);
      assert CubeNeighbors[2] == CubeCoords(0, -1, 1) && CubeNeighbors[3] == CubeCoords(-1, 0, 1);
    } else if i == 3 {
      assert (i + 1) % 6 == 4;
      assert CubeDiagonals[3] == CubeCoords(-2, 1, 1);
      assert CubeNeighbors[3] == CubeCoords(-1, 0, 1) && CubeNeighbors[4] == CubeCoords(-1, 1, 0);
    } else if i == 4 {
      assert (i + 1) % 6 == 5;
      assert CubeDiagonals[4] == CubeCoords(-1, 2, -1);
      assert CubeNeighbors[4] == CubeCoords(-1, 1, 0) && CubeNeighbors[5] == CubeCoords(0, 1, -1);
    } else {
      assert (i + 1) % 6 == 0;
      assert CubeDiagonals[5] == CubeCoords(1, 1, -2);
      assert CubeNeighbors[5] == CubeCoords(0, 1, -1) && CubeNeighbors[0] == CubeCoords(1, 0, -1);
    }
  }

  /** A hexagon of the map. Only its optional coordinate is modelled; the
    * floating-point size, padding, height and width are not. */
  datatype Hexagon = Hexagon(coords: Option<CubeCoords>)

  /** `Hexagon::distance`: `None` unless both hexagons have coordinates,
    * otherwise half the norm of their difference. */
  function Distance(self: Hexagon, hex: Hexagon): (d: Option<real>)
    ensures d.None? <==> self.coords.None? || hex.coords.None?
    ensures d.Some? ==> d.value >= 0.0
    ensures d.Some? ==> (d.value == 0.0 <==> self.coords == hex.coords)
  {
    match self.coords
    case None => None
    case Some(coords) =>
      match hex.coords
      case None => None
      case Some(hexCoords) =>
        var dist := Sub(hexCoords, coords);
        Some((Abs(dist.q) + Abs(dist.r) + Abs(dist.s)) as real / 2.0)
  }

  /** On the grid the norm is even, so a distance is a whole number of steps. */
  lemma OnGridNormEven(c: CubeCoords)
    requires OnGrid(c)
    ensures Norm(c) % 2 == 0
  {
    var neg := (if c.q < 0 then -c.q else 0) + (if c.r < 0 then -c.r else 0) + (if c.s < 0 then -c.s else 0);
    assert Norm(c) == c.q + c.r + c.s + 2 * neg;
  }

  /** The distance between two placed hexagons is the whole number `Norm / 2`. */
  lemma DistanceIsWhole(a: CubeCoords, b: CubeCoords)
    requires OnGrid(a) && OnGrid(b)
    ensures Distance(Hexagon(Some(a)), Hexagon(Some(b))) == Some((Norm(Sub(b, a)) / 2) as real)
  {
    OnGridNormEven(Sub(b, a));
  }

  /** Distance does not depend on the order of its arguments. */
  lemma DistanceSymmetric(a: Hexagon, b: Hexagon)
    ensures Distance(a, b) == Distance(b, a)
  {
  }

  /** Stepping along a neighbour direction moves one hexagon away, along a
    * diagonal direction two. */
  lemma StepDistance(c: CubeCoords, i: nat)
    requires i < 6
    ensures Distance(Hexagon(Some(c)), Hexagon(Some(Add(c, CubeNeighbors[i])))) == Some(1.0)
    ensures Distance(Hexagon(Some(c)), Hexagon(Some(Add(c, CubeDiagonals[i])))) == Some(2.0)
  {
  }

  /** The coordinates `HexMap::new_from_axial` keeps for a radius: q and s range
    * over `-radius..=radius`, r is derived from them, and |r| is at most 3
    * (a constant, not the radius). */
  predicate InAxialMap(radius: int, c: CubeCoords) {
    && -radius <= c.q <= radius
    && -radius <= c.s <= radius
    && c.r == -c.s - c.q
    && Abs(c.r) <= 3
  }

  /** Generation order: q is the outer loop, s the inner one, both ascending. */
  predicate Precedes(a: Hexagon, b: Hexagon) {
    && a.coords.Some? && b.coords.Some?
    && (a.coords.value.q < b.coords.value.q
        || (a.coords.value.q == b.coords.value.q && a.coords.value.s < b.coords.value.s))
  }

  /** The coordinate loop of `HexMap::new_from_axial`: one hexagon per kept
    * coordinate, each on the grid, every kept coordinate present, in (q, s)
    * order. */
  method NewFromAxial(radius: int) returns (hexes: seq<Hexagon>)
    ensures forall i :: 0 <= i < |hexes| ==>
      hexes[i].coords.Some? && InAxialMap(radius, hexes[i].coords.value) && OnGrid(hexes[i].coords.value)
    ensures forall c :: InAxialMap(radius, c) ==> Hexagon(Some(c)) in hexes
    ensures forall i, j :: 0 <= i < j < |hexes| ==> Precedes(hexes[i], hexes[j])
  {
    var hex := Hexagon(None);
    hexes := [];
    var q := -radius;
    while q <= radius
      invariant -radius <= q && (-radius <= radius ==> q <= radius + 1)
      invariant forall i :: 0 <= i < |hexes| ==>
        hexes[i].coords.Some? && InAxialMap(radius, hexes[i].coords.value) && hexes[i].coords.value.q < q
      invariant forall c :: InAxialMap(radius, c) && c.q < q ==> Hexagon(Some(c)) in hexes
      invariant forall i, j :: 0 <= i < j < |hexes| ==> Precedes(hexes[i], hexes[j])
    {
      var s := -radius;
      while s <= radius
        invariant -radius <= s <= radius + 1
        invariant forall i :: 0 <= i < |hexes| ==>
          && hexes[i].coords.Some? && InAxialMap(radius, hexes[i].coords.value)
          && (hexes[i].coords.value.q < q || (hexes[i].coords.value.q == q && hexes[i].coords.value.s < s))
        invariant forall c :: InAxialMap(radius, c) && (c.q < q || (c.q == q && c.s < s)) ==> Hexagon(Some(c)) in hexes
        invariant forall i, j :: 0 <= i < j < |hexes| ==> Precedes(hexes[i], hexes[j])
      {
        var r := -s - q;
        if Abs(r) <= 3 {
          hex := hex.(coords := Some(CubeCoords(q, r, s)));
          hexes := hexes + [hex];
        }
        s := s + 1;
      }
      q := q + 1;
    }
  }
}
