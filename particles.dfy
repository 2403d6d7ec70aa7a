/**
 The render-side lookup tables of the particle system.

 Every drawn point `i` carries a UV attribute that addresses the centre of
 texel `i` of the state texture, and a random size. The tables are walked
 row by row over the whole `size x size` grid, but they only have room for
 `count` particles: writes past their ends are dropped, as typed arrays do.
 */
module Particles {
  import opened Gpgpu

  /** Row-major index of grid cell `(x, y)`. */
  function TexelIndex(x: nat, y: nat, size: nat): nat { y * size + x }

  /** Column of texel `i` in a grid `size` texels wide. */
  function Column(i: nat, size: nat): nat requires size > 0 { i % size }

  /** Row of texel `i` in a grid `size` texels wide. */
  function Row(i: nat, size: nat): nat requires size > 0 { i / size }

  /** Every cell of the grid gets an index inside the texture, and the cell can be recovered from it. */
  lemma RowMajorInjective(x: nat, y: nat, size: nat)
    requires x < size && y < size
    ensures TexelIndex(x, y, size) < Square(size)
    ensures Column(TexelIndex(x, y, size), size) == x
    ensures Row(TexelIndex(x, y, size), size) == y
  {
    var i := TexelIndex(x, y, size);
    MulMonotonic(size, y + 1, size);
    assert i < (y + 1) * size;
    DivModUnique(i, size, y, x);
  }

  /** Every index of the texture is the row-major index of some cell of the grid. */
  lemma RowMajorSurjective(i: nat, size: nat)
    requires i < Square(size)
    ensures size > 0
    ensures Column(i, size) < size && Row(i, size) < size
    ensures TexelIndex(Column(i, size), Row(i, size), size) == i
  {
    if Row(i, size) >= size {
      MulMonotonic(size, size, i / size);
      assert false;
    }
  }

  lemma DivModUnique(i: nat, size: nat, q: nat, m: nat)
    requires m < size && i == q * size + m
    ensures i / size == q && i % size == m
  {
    var q', m' := i / size, i % size;
    assert i == q' * size + m';
    if q > q' {
      MulMonotonic(size, q' + 1, q);
      assert false;
    } else if q < q' {
      MulMonotonic(size, q + 1, q');
      assert false;
    }
  }

  /**
   Texture coordinate of the centre of texel column (or row) `x`: it lies
   strictly inside `(0, 1)`, and scaling it back by the grid side lands in
   that same column.
   */
  function TexelCentre(x: nat, size: nat): (u: real)
    requires x < size
    ensures 0.0 < u < 1.0
    ensures (u * size as real).Floor == x
  {
    var s := size as real;
    var u := (x as real + 0.5) / s;
    UnitQuotient(x as real + 0.5, s);
    u
  }

  lemma UnitQuotient(a: real, s: real)
    requires 0.0 < a < s
    ensures 0.0 < a / s < 1.0
    ensures a / s * s == a
  {
    var q := a / s;
    assert q * s == a;
    if q >= 1.0 {
      assert false;
    }
  }

  /** The texel whose footprint contains texture coordinate `(u, v)` in a `size x size` grid. */
  function TexelUnder(u: real, v: real, size: nat): int
  {
    (v * size as real).Floor * size + (u * size as real).Floor
  }

  /** The UV of particle `i`: the centre of the texel in its column and row. */
  function ParticleUv(i: nat, size: nat): (real, real)
    requires i < Square(size)
  {
    RowMajorSurjective(i, size);
    (TexelCentre(Column(i, size), size), TexelCentre(Row(i, size), size))
  }

  /** Particle `i`'s UV addresses exactly texel `i`, the texel it was seeded into. */
  lemma ParticleUvRoundTrip(i: nat, size: nat)
    requires i < Square(size)
    ensures TexelUnder(ParticleUv(i, size).0, ParticleUv(i, size).1, size) == i
  {
    RowMajorSurjective(i, size);
    var uv := ParticleUv(i, size);
    TexelUnderCell(uv.0, uv.1, Column(i, size), Row(i, size), size);
  }

  lemma TexelUnderCell(u: real, v: real, x: nat, y: nat, size: nat)
    requires (u * size as real).Floor == x && (v * size as real).Floor == y
    ensures TexelUnder(u, v, size) == TexelIndex(x, y, size)
  {
  }

  /** Distinct particles are given distinct UVs. */
  lemma ParticleUvInjective(i: nat, j: nat, size: nat)
    requires i < Square(size) && j < Square(size)
    requires i != j
    ensures ParticleUv(i, size) != ParticleUv(j, size)
  {
    ParticleUvRoundTrip(i, size);
    ParticleUvRoundTrip(j, size);
  }

  /** The UV pair of particle `i` in a flat 2-stride attribute array. */
  function UvAt(uvs: seq<real>, i: nat): (real, real)
    requires 2 * i + 1 < |uvs|
  {
    (uvs[2 * i], uvs[2 * i + 1])
  }

  /**
   Contents of the UV attribute array after the grid walk: room for exactly
   `count` particles, each holding its own texel-centre UV.
   */
  function UvTable(count: nat, size: nat): (t: seq<real>)
    requires count <= Square(size)
    ensures |t| == 2 * count
    ensures forall i :: 0 <= i < count ==> UvAt(t, i) == ParticleUv(i, size)
  {
    if count == 0 then []
    else
      var uv := ParticleUv(count - 1, size);
      var t := UvTable(count - 1, size) + [uv.0, uv.1];
      assert UvAt(t, count - 1) == uv;
      t
  }

  /** The UV of the particle walked at grid cell `(x, y)` is the centre of that cell's texel. */
  lemma ParticleUvOfCell(x: nat, y: nat, size: nat)
    requires x < size && y < size
    ensures TexelIndex(x, y, size) < Square(size)
    ensures ParticleUv(TexelIndex(x, y, size), size) == ((x as real + 0.5) / size as real, (y as real + 0.5) / size as real)
  {
    RowMajorInjective(x, y, size);
  }

  /** A UV table is determined by its length and the UV it gives each particle. */
  lemma {:induction false} UvTableUnique(uvs: seq<real>, count: nat, size: nat)
    requires count <= Square(size)
    requires |uvs| == 2 * count
    requires forall i :: 0 <= i < count ==> UvAt(uvs, i) == ParticleUv(i, size)
    ensures uvs == UvTable(count, size)
  {
    if count > 0 {
      var prefix := uvs[..2 * (count - 1)];
      forall i | 0 <= i < count - 1
        ensures UvAt(prefix, i) == ParticleUv(i, size)
      {
        assert UvAt(prefix, i) == UvAt(uvs, i);
      }
      UvTableUnique(prefix, count - 1, size);
      assert UvAt(uvs, count - 1) == ParticleUv(count - 1, size);
      assert uvs == prefix + [uvs[2 * (count - 1)], uvs[2 * (count - 1) + 1]];
    }
  }

  function Min(a: nat, b: nat): nat { if a <= b then a else b }

  /**
   The nested grid walk: for every cell `(x, y)`, in row-major order, compute
   the particle index `i = y*size + x` and its texel-centre UV, store the UV at
   `2*i` and `2*i + 1` and one random value at `i`. `uvs` and `sizes` are the
   preallocated typed arrays of `2*count` and `count` slots; writes at or past
   their ends are silently dropped. One random value is drawn per cell, in
   walk order, whether or not its write lands.
   */
  method BuildParticleAttributes(uvs: array<real>, sizes: array<real>, count: nat, randoms: seq<real>)
    requires uvs.Length == 2 * count && sizes.Length == count
    requires Square(GridSize(count)) <= |randoms|
    modifies uvs, sizes
    ensures uvs[..] == UvTable(count, GridSize(count))
    ensures sizes[..] == randoms[..count]
  {
    var size := GridSize(count);
    var draws := 0;
    for y := 0 to size
      invariant draws == y * size
      invariant forall j :: 0 <= j < Min(draws, count) ==> UvAt(uvs[..], j) == ParticleUv(j, size)
      invariant forall j :: 0 <= j < Min(draws, count) ==> sizes[j] == randoms[j]
    {
      for x := 0 to size
        invariant draws == y * size + x
        invariant forall j :: 0 <= j < Min(draws, count) ==> UvAt(uvs[..], j) == ParticleUv(j, size)
        invariant forall j :: 0 <= j < Min(draws, count) ==> sizes[j] == randoms[j]
      {
        var i := y * size + x;
        ParticleUvOfCell(x, y, size);
        var i2 := i * 2;
        var uvX := (x as real + 0.5) / size as real;
        var uvY := (y as real + 0.5) / size as real;
        if i2 < uvs.Length {
          uvs[i2] := uvX;
        }
        if i2 + 1 < uvs.Length {
          uvs[i2 + 1] := uvY;
        }
        var random := randoms[draws];
        draws := draws + 1;
        if i < sizes.Length {
          sizes[i] := random;
        }
      }
      assert draws == (y + 1) * size;
    }
    assert draws == Square(size);
    UvTableUnique(uvs[..], count, size);
    assert sizes[..] == randoms[..count];
  }

  /** A geometry's draw range: the vertices `[start, start + count)` are drawn. */
  datatype DrawRange = DrawRange(start: nat, count: nat)

  predicate Draws(range: DrawRange, v: nat)
  {
    range.start <= v < range.start + range.count
  }

  /** The draw range of the particle points: exactly the particles, never the padding texels. */
  function ParticleDrawRange(count: nat): (range: DrawRange)
    ensures forall v: nat :: Draws(range, v) <==> v < count
  {
    DrawRange(0, count)
  }

  /**
   Every drawn point `i` finds its UV inside the attribute table, that UV
   addresses texel `i`, and texel `i` of the seeded texture holds particle
   `i`'s position and random value.
   */
  lemma DrawnParticleSamplesItsSeed(init: seq<real>, positions: seq<real>, randoms: seq<real>, count: nat, i: nat)
    requires |init| == 4 * Square(GridSize(count))
    requires |positions| == 3 * count
    requires count <= |randoms|
    requires Draws(ParticleDrawRange(count), i)
    ensures 2 * i + 1 < |UvTable(count, GridSize(count))|
    ensures var uv := UvAt(UvTable(count, GridSize(count)), i);
            TexelUnder(uv.0, uv.1, GridSize(count)) == i
    ensures TexelAt(SeededTexture(init, positions, randoms, count), i) == SeedTexel(positions, randoms, i)
  {
    var size := GridSize(count);
    assert i < count;
    ParticleUvRoundTrip(i, size);
  }

  /**
   The start-up sequence of the demo: size the grid, create the state texture
   (zero-filled, `4*size*size` slots), seed it, build the attribute tables and
   set the draw range. Every point that is drawn reads, through its UV, the
   texel seeded with its own particle.
   */
  method Setup(count: nat, positions: seq<real>, seedRandoms: seq<real>, sizeRandoms: seq<real>)
    returns (size: nat, texture: array<real>, uvs: array<real>, sizes: array<real>, range: DrawRange)
    requires |positions| == 3 * count
    requires count <= |seedRandoms|
    requires Square(GridSize(count)) <= |sizeRandoms|
    ensures size == GridSize(count)
    ensures fresh(texture) && fresh(uvs) && fresh(sizes)
    ensures texture.Length == 4 * Square(size) && uvs.Length == 2 * count && sizes.Length == count
    ensures forall k :: 4 * count <= k < texture.Length ==> texture[k] == 0.0
    ensures uvs[..] == UvTable(count, size)
    ensures forall v: nat :: Draws(range, v) <==> v < count
    ensures forall v: nat :: Draws(range, v) ==>
      TexelUnder(UvAt(uvs[..], v).0, UvAt(uvs[..], v).1, size) == v &&
      TexelAt(texture[..], v) == SeedTexel(positions, seedRandoms, v) &&
      sizes[v] == sizeRandoms[v]
  {
    size := GridSize(count);
    texture := new real[4 * size * size](_ => 0.0);
    Seed(texture, positions, seedRandoms, count);
    uvs := new real[count * 2];
    sizes := new real[count];
    BuildParticleAttributes(uvs, sizes, count, sizeRandoms);
    range := ParticleDrawRange(count);
    forall v: nat | Draws(range, v)
      ensures TexelUnder(UvAt(uvs[..], v).0, UvAt(uvs[..], v).1, size) == v
    {
      ParticleUvRoundTrip(v, size);
    }
  }
}
