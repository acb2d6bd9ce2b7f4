/** The uniform grid behind the neighbour search: a point falls in an
    integer cell, a cell has a linear hash, and a hash has a key in the
    lookup table. */
module SpatialHash {
  import opened Vectors

  datatype Cell = Cell(x: int, y: int)

  function AddCell(a: Cell, b: Cell): Cell {
    Cell(a.x + b.x, a.y + b.y)
  }

  /** The 3x3 block of neighbour offsets, in the order the search visits them:
      bottom row, middle row (with the cell itself), top row. */
  const Offsets: seq<Cell> := [
    Cell(-1, 1), Cell(0, 1), Cell(1, 1),
    Cell(-1, 0), Cell(0, 0), Cell(1, 0),
    Cell(-1, -1), Cell(0, -1), Cell(1, -1)
  ]

  const HashK1: int := 15823
  const HashK2: int := 9737333

  /** Where the offset (dx, dy) of the 3x3 block stands in Offsets. */
  function OffsetIndex(dx: int, dy: int): (k: nat)
    requires -1 <= dx <= 1 && -1 <= dy <= 1
    ensures k < |Offsets| && Offsets[k] == Cell(dx, dy)
  {
    (1 - dy) * 3 + (dx + 1)
  }

  /** Offsets lists every vector of {-1,0,1}^2, and lists each only once. */
  lemma OffsetsAreTheBlock()
    ensures |Offsets| == 9
    ensures forall k :: 0 <= k < |Offsets| ==> -1 <= Offsets[k].x <= 1 && -1 <= Offsets[k].y <= 1
    ensures forall a, b :: 0 <= a < b < |Offsets| ==> Offsets[a] != Offsets[b]
  {
    forall a, b | 0 <= a < b < |Offsets|
      ensures Offsets[a] != Offsets[b]
    {
      // each entry is found again by OffsetIndex at its own position
      assert OffsetIndex(Offsets[a].x, Offsets[a].y) == a;
      assert OffsetIndex(Offsets[b].x, Offsets[b].y) == b;
    }
  }

  /** Python's int() on a float: truncation toward zero. */
  function Trunc(q: real): (t: int)
    ensures q >= 0.0 ==> t >= 0 && t as real <= q < t as real + 1.0
    ensures q < 0.0 ==> t <= 0 && t as real - 1.0 < q <= t as real
  {
    if q >= 0.0 then q.Floor else -((-q).Floor)
  }

  /** The cell of a point: each coordinate divided by the radius, truncated
      toward zero. */
  function GetCell(point: Vec, radius: real): Cell
    requires radius != 0.0
  {
    Cell(Trunc(point.x / radius), Trunc(point.y / radius))
  }

  /** Each cell coordinate is the integer next to the scaled coordinate on
      the side of zero. */
  lemma GetCellTruncates(point: Vec, radius: real)
    requires radius != 0.0
    ensures var c := GetCell(point, radius);
            (point.x / radius >= 0.0 ==> 0 <= c.x && c.x as real <= point.x / radius < c.x as real + 1.0)
            && (point.x / radius < 0.0 ==> c.x <= 0 && c.x as real - 1.0 < point.x / radius <= c.x as real)
            && (point.y / radius >= 0.0 ==> 0 <= c.y && c.y as real <= point.y / radius < c.y as real + 1.0)
            && (point.y / radius < 0.0 ==> c.y <= 0 && c.y as real - 1.0 < point.y / radius <= c.y as real)
  {
  }

  function HashCell(cell: Cell): int {
    cell.x * HashK1 + cell.y * HashK2
  }

  /** Python's % with a positive divisor, which agrees with Dafny's. */
  function GetKeyFromHash(cellHash: int, tableSize: int): (key: int)
    requires tableSize > 0
    ensures 0 <= key < tableSize
    ensures (cellHash - key) % tableSize == 0
  {
    var key := cellHash % tableSize;
    MultipleMod(cellHash / tableSize, tableSize);
    assert cellHash - key == (cellHash / tableSize) * tableSize;
    key
  }

  lemma MultipleMod(q: int, n: int)
    requires n > 0
    ensures (q * n) % n == 0
  {
    var m := q * n;
    assert m == (m / n) * n + m % n;
    assert (q - m / n) * n == m % n;
    SmallMultipleIsZero(q - m / n, n, m % n);
  }

  lemma SmallMultipleIsZero(d: int, n: int, r: int)
    requires n > 0 && 0 <= r < n && d * n == r
    ensures r == 0
  {
    ProductAtLeastFactor(d, n);
    ProductAtLeastFactor(-d, n);
  }

  lemma ProductAtLeastFactor(d: int, n: int)
    ensures d >= 1 && n >= 0 ==> d * n >= n
  {
    if d >= 1 && n >= 0 {
      assert d * n == (d - 1) * n + n;
    }
  }

  /** The hash is linear in the cell, so shifting a cell shifts its hash. */
  lemma HashOfShift(c: Cell, o: Cell)
    ensures HashCell(AddCell(c, o)) == HashCell(c) + o.x * HashK1 + o.y * HashK2
  {
  }

  /** Two cells that lie within 615 columns of each other share a hash only
      when they are the same cell. */
  lemma HashInjectiveNearby(a: Cell, b: Cell)
    requires -615 <= a.x - b.x <= 615
    ensures HashCell(a) == HashCell(b) <==> a == b
  {
    var dx, dy := a.x - b.x, a.y - b.y;
    assert HashCell(a) - HashCell(b) == dx * HashK1 + dy * HashK2;
    assert -9731145 <= dx * HashK1 <= 9731145;
  }

  /** The hash is not collision-free: distant cells can share a hash. */
  lemma HashCollides()
    ensures Cell(HashK2, -HashK1) != Cell(0, 0) && HashCell(Cell(HashK2, -HashK1)) == HashCell(Cell(0, 0))
  {
  }

  /** The nine cells of the 3x3 block around any cell have pairwise distinct
      hashes, so the search never visits one bucket twice. */
  lemma NeighbourHashesDistinct(c: Cell)
    ensures forall a, b :: 0 <= a < b < |Offsets| ==> HashCell(AddCell(c, Offsets[a])) != HashCell(AddCell(c, Offsets[b]))
  {
    OffsetsAreTheBlock();
    forall a, b | 0 <= a < b < |Offsets|
      ensures HashCell(AddCell(c, Offsets[a])) != HashCell(AddCell(c, Offsets[b]))
    {
      HashInjectiveNearby(AddCell(c, Offsets[a]), AddCell(c, Offsets[b]));
    }
  }

  /** Truncation of two reals less than one apart gives integers at most one
      apart. */
  lemma TruncAdjacent(a: real, b: real)
    requires -1.0 < a - b < 1.0
    ensures -1 <= Trunc(a) - Trunc(b) <= 1
  {
  }

  /** Two coordinates closer than one radius fall in the same or in adjacent
      cells along that axis. */
  lemma CellsAdjacentWithinRadius(p: real, q: real, radius: real)
    requires radius > 0.0
    requires -radius < p - q < radius
    ensures -1 <= Trunc(p / radius) - Trunc(q / radius) <= 1
  {
    var a, b := p / radius, q / radius;
    var t := a - b;
    assert t * radius == p - q;
    RealProductAtLeastFactor(t, radius);
    RealProductAtLeastFactor(-t, radius);
    TruncAdjacent(a, b);
  }

  lemma RealProductAtLeastFactor(t: real, r: real)
    ensures t >= 1.0 && r >= 0.0 ==> t * r >= r
  {
    if t >= 1.0 && r >= 0.0 {
      assert t * r == (t - 1.0) * r + r;
      assert (t - 1.0) * r >= 0.0;
    }
  }

  /** Two points closer than one radius on each axis: the cell of either lies
      in the 3x3 block around the cell of the other. */
  lemma NearPointInBlock(p: Vec, q: Vec, radius: real) returns (k: nat)
    requires radius > 0.0
    requires -radius < p.x - q.x < radius && -radius < p.y - q.y < radius
    ensures k < |Offsets| && GetCell(p, radius) == AddCell(GetCell(q, radius), Offsets[k])
  {
    CellsAdjacentWithinRadius(p.x, q.x, radius);
    CellsAdjacentWithinRadius(p.y, q.y, radius);
    var cp, cq := GetCell(p, radius), GetCell(q, radius);
    k := OffsetIndex(cp.x - cq.x, cp.y - cq.y);
  }
}
