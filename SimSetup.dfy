/** The initial layout of the particles: a near-square grid centred on the
    simulation area. */
module SimSetup {
  import opened Vectors

  /** int(math.sqrt(n)), counted up from zero. */
  function ISqrt(n: nat): nat {
    if n == 0 then 0
    else
      var s := ISqrt(n - 1);
      if (s + 1) * (s + 1) <= n then s + 1 else s
  }

  /** ISqrt(n) is the largest r with r * r <= n. */
  lemma {:induction false} ISqrtIsFloorRoot(n: nat)
    ensures ISqrt(n) * ISqrt(n) <= n < (ISqrt(n) + 1) * (ISqrt(n) + 1)
  {
    if n > 0 {
      ISqrtIsFloorRoot(n - 1);
      var s := ISqrt(n - 1);
      if (s + 1) * (s + 1) <= n {
        NextSquareAbove(s, n);
      }
    }
  }

  lemma NextSquareAbove(s: nat, n: nat)
    requires n - 1 < (s + 1) * (s + 1) <= n
    ensures n < (s + 2) * (s + 2)
  {
    assert (s + 2) * (s + 2) == (s + 1) * (s + 1) + 2 * s + 3;
  }

  /** Particles per row: the integer square root of the particle count. */
  function ParticlesPerRow(particleNumber: nat): nat {
    ISqrt(particleNumber)
  }

  /** Particles per column: enough rows of ParticlesPerRow to hold them all. */
  function ParticlesPerCol(particleNumber: nat): int
    requires particleNumber >= 1
  {
    RowsArePositive(particleNumber);
    (particleNumber - 1) / ParticlesPerRow(particleNumber) + 1
  }

  /** Where particle i of the grid is placed: column i % ppr and row i / ppr,
      both centred on the middle of the screen, one spacing apart. */
  function GridPosition(i: nat, ppr: nat, ppc: int, spacing: real, screenWidth: int, screenHeight: int): Vec
    requires ppr >= 1
  {
    Vec((screenWidth / 2) as real + ((i % ppr - ppr / 2) as real) * spacing,
        (screenHeight / 2) as real + ((i / ppr - ppc / 2) as real) * spacing)
  }

  lemma RowsArePositive(particleNumber: nat)
    requires particleNumber >= 1
    ensures ParticlesPerRow(particleNumber) >= 1
  {
    ISqrtIsFloorRoot(particleNumber);
  }

  /** The grid has room for every particle, and every particle's row lies
      inside it. */
  lemma GridHoldsAll(particleNumber: nat)
    requires particleNumber >= 1
    ensures ParticlesPerRow(particleNumber) >= 1
    ensures ParticlesPerRow(particleNumber) * ParticlesPerCol(particleNumber) >= particleNumber
    ensures forall i :: 0 <= i < particleNumber ==> i / ParticlesPerRow(particleNumber) < ParticlesPerCol(particleNumber)
  {
    RowsArePositive(particleNumber);
    var ppr, n := ParticlesPerRow(particleNumber), particleNumber;
    var ppc := ParticlesPerCol(particleNumber);
    assert ppc == (n - 1) / ppr + 1;
    RoundUpHolds(n - 1, ppr);
    forall i | 0 <= i < n
      ensures i / ppr < ppc
    {
      DivMonotone(i, n - 1, ppr);
    }
  }

  /** d rows of (m / d + 1) hold more than m items. */
  lemma RoundUpHolds(m: nat, d: nat)
    requires d >= 1
    ensures d * (m / d + 1) > m
  {
    var q := m / d;
    assert m == d * q + m % d;
    assert d * (q + 1) == d * q + d;
  }

  lemma DivMonotone(a: nat, b: nat, d: nat)
    requires a <= b && d >= 1
    ensures a / d <= b / d
  {
    var qa, qb := a / d, b / d;
    assert a == d * qa + a % d;
    assert b == d * qb + b % d;
    MulLeftMonotone(d, qb + 1, qa);
    assert d * (qb + 1) == d * qb + d;
  }

  lemma MulLeftMonotone(d: nat, x: int, y: int)
    ensures x <= y ==> d * x <= d * y
  {
    assert d * y - d * x == d * (y - x);
  }

  /** Two different particles of the grid never share a position while the
      spacing is not zero, because (column, row) determines the index. */
  lemma GridPositionsDistinct(i: nat, j: nat, ppr: nat, ppc: int, spacing: real, screenWidth: int, screenHeight: int)
    requires ppr >= 1 && spacing != 0.0
    ensures GridPosition(i, ppr, ppc, spacing, screenWidth, screenHeight) == GridPosition(j, ppr, ppc, spacing, screenWidth, screenHeight)
            <==> i == j
  {
    var p, q := GridPosition(i, ppr, ppc, spacing, screenWidth, screenHeight), GridPosition(j, ppr, ppc, spacing, screenWidth, screenHeight);
    if p == q {
      CancelFactor((i % ppr - ppr / 2) as real, (j % ppr - ppr / 2) as real, spacing);
      CancelFactor((i / ppr - ppc / 2) as real, (j / ppr - ppc / 2) as real, spacing);
      assert i % ppr == j % ppr && i / ppr == j / ppr;
      assert i == ppr * (i / ppr) + i % ppr;
      assert j == ppr * (j / ppr) + j % ppr;
    }
  }

  lemma CancelFactor(a: real, b: real, s: real)
    requires s != 0.0 && a * s == b * s
    ensures a == b
  {
    assert (a - b) * s == 0.0;
  }

  /** SpawnParticlesInGrid: one position per particle, particle i at
      GridPosition(i). A particle count of zero divides by a zero row count,
      so at least one particle is required. */
  method SpawnParticlesInGrid(particleNumber: nat, particleSize: real, particleSpacing: real, screenWidth: int, screenHeight: int)
    returns (positions: array<Vec>)
    requires particleNumber >= 1
    ensures fresh(positions) && positions.Length == particleNumber
    ensures ParticlesPerRow(particleNumber) >= 1
    ensures forall i :: 0 <= i < particleNumber ==>
              positions[i] == GridPosition(i, ParticlesPerRow(particleNumber), ParticlesPerCol(particleNumber),
                                           particleSpacing + particleSize, screenWidth, screenHeight)
  {
    positions := new Vec[particleNumber];
    var particlesPerRow := ISqrt(particleNumber);
    RowsArePositive(particleNumber);
    var particlesPerCol := (particleNumber - 1) / particlesPerRow + 1;
    var spacing := particleSpacing + particleSize;
    for i := 0 to particleNumber
      invariant forall k :: 0 <= k < i ==>
                  positions[k] == GridPosition(k, particlesPerRow, particlesPerCol, spacing, screenWidth, screenHeight)
    {
      var x := (screenWidth / 2) as real + ((i % particlesPerRow - particlesPerRow / 2) as real) * spacing;
      var y := (screenHeight / 2) as real + ((i / particlesPerRow - particlesPerCol / 2) as real) * spacing;
      assert Vec(x, y) == GridPosition(i, particlesPerRow, particlesPerCol, spacing, screenWidth, screenHeight);
      positions[i] := Vec(x, y);
    }
  }
}
