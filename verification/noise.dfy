/** `RayTracingEngine.Math.Noise`: lattice noise. A table of indices is
    filled and shuffled, a table of noise values is drawn, and a point's
    noise is the trilinear interpolation of the values at the eight
    surrounding lattice points. The random draws are inputs here. */
module Noise {
  import opened Wrappers
  import opened Utils

  const DefaultAmount: nat := 256

  /** The tables of one noise generator. */
  datatype Noise = Noise(amount: nat, indexTable: seq<int>, noiseTable: seq<real>)

  /** Tables of the generator's size whose indices all point into them. */
  predicate Valid(n: Noise) {
    n.amount > 0 && |n.indexTable| == n.amount && |n.noiseTable| == n.amount
    && forall i :: 0 <= i < n.amount ==> 0 <= n.indexTable[i] < n.amount
  }

  /** `0, 1, ..., n - 1`: the index table after the fill loop. */
  function Ascending(n: nat): (s: seq<int>)
    ensures |s| == n && forall i :: 0 <= i < n ==> s[i] == i
  {
    seq(n, i => i)
  }

  /** One step of the shuffle as written: the entry at `i` is copied to
      `r`, and the entry at `i` keeps its value. */
  function CopyStep(s: seq<int>, i: nat, r: nat): (s': seq<int>)
    requires i < |s| && r < |s|
    ensures |s'| == |s| && s'[r] == s[i] && s'[i] == s[i]
    ensures forall j :: 0 <= j < |s| && j != r ==> s'[j] == s[j]
  {
    s[r := s[i]]
  }

  /** The index table after the first `k` steps of the shuffle as written. */
  function CopyShuffle(s: seq<int>, randomIndices: seq<int>, k: nat): (t: seq<int>)
    requires k <= |s| && |randomIndices| == |s|
    requires forall i :: 0 <= i < |s| ==> 0 <= randomIndices[i] < |s|
    ensures |t| == |s|
  {
    if k == 0 then s
    else CopyStep(CopyShuffle(s, randomIndices, k - 1), k - 1, randomIndices[k - 1])
  }

  /** The copying shuffle never invents an entry: every entry it leaves was
      already in the table. It can still duplicate one and lose another
      (`CopyShuffleLosesEntries`). */
  lemma {:induction false} CopyShuffleKeepsEntries(s: seq<int>, randomIndices: seq<int>, k: nat)
    requires k <= |s| && |randomIndices| == |s|
    requires forall i :: 0 <= i < |s| ==> 0 <= randomIndices[i] < |s|
    ensures forall j :: 0 <= j < |s| ==> CopyShuffle(s, randomIndices, k)[j] in s
  {
    if k > 0 {
      CopyShuffleKeepsEntries(s, randomIndices, k - 1);
      var before := CopyShuffle(s, randomIndices, k - 1);
      forall j | 0 <= j < |s|
        ensures CopyShuffle(s, randomIndices, k)[j] in s
      {
        assert before[j] in s && before[k - 1] in s;
      }
    }
  }

  /** One more than the largest index the shuffle can draw: a draw is a
      value in `[0, amount - 1)` truncated to an integer, so it never reaches
      the last entry; with a single entry the draw is always 0. */
  function DrawBound(amount: nat): (b: nat)
    requires amount > 0
    ensures 0 < b <= amount
  {
    if amount > 1 then amount - 1 else 1
  }

  /** Random indices the source can draw: one per entry, each below
      `DrawBound`. */
  predicate ValidDraws(amount: nat, randomIndices: seq<int>)
    requires amount > 0
  {
    |randomIndices| == amount && forall i :: 0 <= i < amount ==> 0 <= randomIndices[i] < DrawBound(amount)
  }

  /** `GetNoiseTables` as written: the fill loop, the shuffle loop and the
      noise-value loop over arrays, with the random draws given. */
  method GetNoiseTables(amount: nat, randomIndices: seq<int>, randomValues: seq<real>) returns (n: Noise)
    requires amount > 0
    requires ValidDraws(amount, randomIndices)
    requires |randomValues| == amount
    ensures Valid(n) && n.amount == amount
    ensures n.indexTable == CopyShuffle(Ascending(amount), randomIndices, amount)
    ensures n.noiseTable == randomValues
  {
    var indexTable := new int[amount];
    for i := 0 to amount
      invariant forall j :: 0 <= j < i ==> indexTable[j] == j
    {
      indexTable[i] := i;
    }
    assert indexTable[..] == Ascending(amount);
    for i := 0 to amount
      invariant indexTable[..] == CopyShuffle(Ascending(amount), randomIndices, i)
      invariant forall j :: 0 <= j < amount ==> 0 <= indexTable[j] < amount
    {
      var randomIndex := randomIndices[i];
      var temporaryHolder := indexTable[i];
      indexTable[randomIndex] := indexTable[i];
      indexTable[i] := temporaryHolder;
    }
    var indexes := indexTable[..];
    var noiseTable := new real[amount];
    for i := 0 to amount
      invariant forall j :: 0 <= j < i ==> noiseTable[j] == randomValues[j]
    {
      noiseTable[i] := randomValues[i];
    }
    assert noiseTable[..] == randomValues;
    n := Noise(amount, indexes, noiseTable[..]);
  }

  /** The shuffle as written need not produce a permutation: with three
      entries and every draw equal to 1, which the source can draw, the
      entry 1 is overwritten and lost. */
  lemma CopyShuffleLosesEntries()
    ensures ValidDraws(3, [1, 1, 1])
    ensures CopyShuffle(Ascending(3), [1, 1, 1], 3) == [0, 2, 2]
    ensures multiset(CopyShuffle(Ascending(3), [1, 1, 1], 3)) != multiset(Ascending(3))
  {
    assert Ascending(3) == [0, 1, 2];
    assert CopyShuffle(Ascending(3), [1, 1, 1], 1) == [0, 0, 2];
    assert CopyShuffle(Ascending(3), [1, 1, 1], 2) == [0, 0, 2];
    assert multiset([0, 2, 2])[1] == 0;
    assert multiset(Ascending(3))[1] == 1;
  }

  /** One step of a swapping shuffle, as the temporary variable suggests
      was meant. */
  function SwapStep(s: seq<int>, i: nat, r: nat): (s': seq<int>)
    requires i < |s| && r < |s|
    ensures |s'| == |s| && s'[r] == s[i] && s'[i] == s[r]
    ensures multiset(s') == multiset(s)
  {
    s[i := s[r]][r := s[i]]
  }

  /** The index table after the first `k` steps of a swapping shuffle. */
  function SwapShuffle(s: seq<int>, randomIndices: seq<int>, k: nat): (t: seq<int>)
    requires k <= |s| && |randomIndices| == |s|
    requires forall i :: 0 <= i < |s| ==> 0 <= randomIndices[i] < |s|
    ensures |t| == |s|
    ensures multiset(t) == multiset(s)
  {
    if k == 0 then s
    else SwapStep(SwapShuffle(s, randomIndices, k - 1), k - 1, randomIndices[k - 1])
  }

  /** A permutation of `0 .. n - 1` holds only indexes below `n`. */
  lemma PermutationInRange(t: seq<int>, n: nat)
    requires multiset(t) == multiset(Ascending(n))
    ensures forall j :: 0 <= j < |t| ==> 0 <= t[j] < n
  {
    forall j | 0 <= j < |t|
      ensures 0 <= t[j] < n
    {
      assert t[j] in multiset(Ascending(n));
      assert t[j] in Ascending(n);
    }
  }

  /** `GetNoiseTables` with the shuffle swapping entries: the index table
      ends as a permutation of `0 .. amount - 1`. */
  method GetNoiseTablesIntended(amount: nat, randomIndices: seq<int>, randomValues: seq<real>) returns (n: Noise)
    requires amount > 0
    requires ValidDraws(amount, randomIndices)
    requires |randomValues| == amount
    ensures Valid(n) && n.amount == amount
    ensures n.indexTable == SwapShuffle(Ascending(amount), randomIndices, amount)
    ensures multiset(n.indexTable) == multiset(Ascending(amount))
    ensures n.noiseTable == randomValues
  {
    var indexTable := new int[amount];
    for i := 0 to amount
      invariant forall j :: 0 <= j < i ==> indexTable[j] == j
    {
      indexTable[i] := i;
    }
    assert indexTable[..] == Ascending(amount);
    for i := 0 to amount
      invariant indexTable[..] == SwapShuffle(Ascending(amount), randomIndices, i)
    {
      var randomIndex := randomIndices[i];
      var temporaryHolder := indexTable[i];
      indexTable[i] := indexTable[randomIndex];
      indexTable[randomIndex] := temporaryHolder;
    }
    var indexes := indexTable[..];
    PermutationInRange(indexes, amount);
    var noiseTable := new real[amount];
    for i := 0 to amount
      invariant forall j :: 0 <= j < i ==> noiseTable[j] == randomValues[j]
    {
      noiseTable[i] := randomValues[i];
    }
    assert noiseTable[..] == randomValues;
    n := Noise(amount, indexes, noiseTable[..]);
  }

  /** `PermutatePoint`: the index table entry at `point % amount`. A negative
      point with a non-zero remainder gives a negative index, which throws;
      that is `None`. */
  function PermutatePoint(n: Noise, point: int): (r: Option<int>)
    requires Valid(n)
    ensures point >= 0 ==> r == Some(n.indexTable[point % n.amount])
    ensures r.Some? ==> 0 <= r.value < n.amount
    ensures r.None? <==> TruncRem(point, n.amount) < 0
  {
    var k := TruncRem(point, n.amount);
    if k < 0 then None else Some(n.indexTable[k])
  }

  /** The conversion `(int) x`: truncation toward zero. */
  function Trunc(x: real): (k: int)
    ensures x >= 0.0 ==> 0 <= k && k as real <= x < k as real + 1.0
  {
    if x >= 0.0 then x.Floor else -((-x).Floor)
  }

  lemma TruncOfInteger(k: int)
    ensures Trunc(k as real) == k
  {
  }

  /** The noise at a lattice point: three nested table lookups, then the
      noise value they select. */
  function LatticeNoiseAt(n: Noise, x: int, y: int, z: int): (v: Option<real>)
    requires Valid(n)
    ensures x >= 0 && y >= 0 && z >= 0 ==> v.Some?
    ensures v.Some? ==> v.value in n.noiseTable
  {
    match PermutatePoint(n, z)
    case None => None
    case Some(pz) =>
      match PermutatePoint(n, y + pz)
      case None => None
      case Some(py) =>
        match PermutatePoint(n, x + py)
        case None => None
        case Some(px) => Some(n.noiseTable[px])
  }

  /** `GetLatticeNoise`: the coordinates are truncated to integers first. */
  function GetLatticeNoise(n: Noise, point: (real, real, real)): (v: Option<real>)
    requires Valid(n)
    ensures point.0 >= 0.0 && point.1 >= 0.0 && point.2 >= 0.0 ==> v.Some?
    ensures v.Some? ==> v.value in n.noiseTable
  {
    LatticeNoiseAt(n, Trunc(point.0), Trunc(point.1), Trunc(point.2))
  }

  /** The lattice value at corner `(i, j, k)` of the cell at `(ix, iy, iz)`;
      the corner is built as a floating-point vector and truncated back. */
  function CornerAt(n: Noise, ix: int, iy: int, iz: int, i: nat, j: nat, k: nat): (v: Option<real>)
    requires Valid(n)
    ensures ix >= 0 && iy >= 0 && iz >= 0 ==> v.Some?
  {
    GetLatticeNoise(n, ((ix + i) as real, (iy + j) as real, (iz + k) as real))
  }

  /** The values at the eight lattice points around `(ix, iy, iz)`, the
      source's `v[k][j][i]` stored at `4 k + 2 j + i`; `None` when a lookup
      would throw. */
  function Corners(n: Noise, ix: int, iy: int, iz: int): (vs: Option<seq<real>>)
    requires Valid(n)
    ensures ix >= 0 && iy >= 0 && iz >= 0 ==> vs.Some?
    ensures vs.Some? ==> |vs.value| == 8
    ensures vs.Some? ==> forall i, j, k :: 0 <= i < 2 && 0 <= j < 2 && 0 <= k < 2 ==>
              Some(vs.value[4 * k + 2 * j + i]) == CornerAt(n, ix, iy, iz, i, j, k)
  {
    var v000, v100 := CornerAt(n, ix, iy, iz, 0, 0, 0), CornerAt(n, ix, iy, iz, 1, 0, 0);
    var v010, v110 := CornerAt(n, ix, iy, iz, 0, 1, 0), CornerAt(n, ix, iy, iz, 1, 1, 0);
    var v001, v101 := CornerAt(n, ix, iy, iz, 0, 0, 1), CornerAt(n, ix, iy, iz, 1, 0, 1);
    var v011, v111 := CornerAt(n, ix, iy, iz, 0, 1, 1), CornerAt(n, ix, iy, iz, 1, 1, 1);
    if v000.Some? && v100.Some? && v010.Some? && v110.Some? && v001.Some? && v101.Some? && v011.Some? && v111.Some? then
      Some([v000.value, v100.value, v010.value, v110.value, v001.value, v101.value, v011.value, v111.value])
    else None
  }

  /** Trilinear interpolation: along x on the four edges, then along y,
      then along z. */
  function Trilinear(v: seq<real>, fx: real, fy: real, fz: real): (r: real)
    requires |v| == 8
    ensures fx == 0.0 && fy == 0.0 && fz == 0.0 ==> r == v[0]
    ensures fx == 1.0 && fy == 1.0 && fz == 1.0 ==> r == v[7]
  {
    var x0 := Lerp(v[0], v[1], fx);
    var x1 := Lerp(v[2], v[3], fx);
    var x2 := Lerp(v[4], v[5], fx);
    var x3 := Lerp(v[6], v[7], fx);
    var y0 := Lerp(x0, x1, fy);
    var y1 := Lerp(x2, x3, fy);
    Lerp(y0, y1, fz)
  }

  /** The point's coordinate shifted into the positive range, as the source
      does before splitting it. */
  function Shifted(c: real, scale: real): real {
    c * scale + 10000.0
  }

  /** `GetNoise(scale, point)`: the integer and fractional parts of the
      shifted coordinates, the eight lattice values and their
      interpolation. `None` when a lattice lookup would throw. */
  function GetNoise(n: Noise, scale: real, px: real, py: real, pz: real): (v: Option<real>)
    requires Valid(n)
    ensures Shifted(px, scale) >= 0.0 && Shifted(py, scale) >= 0.0 && Shifted(pz, scale) >= 0.0 ==> v.Some?
  {
    var x, y, z := Shifted(px, scale), Shifted(py, scale), Shifted(pz, scale);
    var ix, iy, iz := Trunc(x), Trunc(y), Trunc(z);
    var fx, fy, fz := x - ix as real, y - iy as real, z - iz as real;
    match Corners(n, ix, iy, iz)
    case None => None
    case Some(vs) => Some(Trilinear(vs, fx, fy, fz))
  }

  /** The fractional parts of non-negative shifted coordinates lie in
      [0, 1). */
  lemma FractionsInUnitInterval(c: real, scale: real)
    requires Shifted(c, scale) >= 0.0
    ensures 0.0 <= Shifted(c, scale) - Trunc(Shifted(c, scale)) as real < 1.0
  {
  }

  /** Interpolating with weights in [0, 1] stays within any bounds of the
      eight corner values. */
  lemma TrilinearBetween(v: seq<real>, fx: real, fy: real, fz: real, lo: real, hi: real)
    requires |v| == 8
    requires 0.0 <= fx <= 1.0 && 0.0 <= fy <= 1.0 && 0.0 <= fz <= 1.0
    requires forall c :: 0 <= c < 8 ==> lo <= v[c] <= hi
    ensures lo <= Trilinear(v, fx, fy, fz) <= hi
  {
    var x0 := Lerp(v[0], v[1], fx);
    var x1 := Lerp(v[2], v[3], fx);
    var x2 := Lerp(v[4], v[5], fx);
    var x3 := Lerp(v[6], v[7], fx);
    LerpBetween(v[0], v[1], fx);
    LerpBetween(v[2], v[3], fx);
    LerpBetween(v[4], v[5], fx);
    LerpBetween(v[6], v[7], fx);
    var y0 := Lerp(x0, x1, fy);
    var y1 := Lerp(x2, x3, fy);
    LerpBetween(x0, x1, fy);
    LerpBetween(x2, x3, fy);
    LerpBetween(y0, y1, fz);
  }

  /** When the shifted coordinates are non-negative the noise exists and
      lies between any lower and upper bound of the eight lattice values
      around the point. */
  lemma NoiseBetweenCorners(n: Noise, scale: real, px: real, py: real, pz: real, lo: real, hi: real)
    requires Valid(n)
    requires Shifted(px, scale) >= 0.0 && Shifted(py, scale) >= 0.0 && Shifted(pz, scale) >= 0.0
    requires var vs := Corners(n, Trunc(Shifted(px, scale)), Trunc(Shifted(py, scale)), Trunc(Shifted(pz, scale)));
             vs.Some? && forall c :: 0 <= c < 8 ==> lo <= vs.value[c] <= hi
    ensures GetNoise(n, scale, px, py, pz).Some?
    ensures lo <= GetNoise(n, scale, px, py, pz).value <= hi
  {
    var x, y, z := Shifted(px, scale), Shifted(py, scale), Shifted(pz, scale);
    FractionsInUnitInterval(px, scale);
    FractionsInUnitInterval(py, scale);
    FractionsInUnitInterval(pz, scale);
    var vs := Corners(n, Trunc(x), Trunc(y), Trunc(z)).value;
    TrilinearBetween(vs, x - Trunc(x) as real, y - Trunc(y) as real, z - Trunc(z) as real, lo, hi);
  }
}
