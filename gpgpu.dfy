/**
 Grid sizing and seeding of the particle state texture.

 Every particle owns one RGBA texel of a square floating-point texture: texel
 `i` occupies the four slots `[4*i, 4*i + 4)` of the texture's flat buffer and
 holds the particle's position in its first three channels and a random value
 in `[0, 1)` in the fourth.
 */
module Gpgpu {

  /** Square of a natural number; a named term so that quantifiers have something to hang on. */
  function Square(n: nat): nat { n * n }

  lemma SquareMonotonic(a: nat, b: nat)
    requires a <= b
    ensures Square(a) <= Square(b)
  {
    calc {
      a * a;
    <= { MulMonotonic(a, a, b); }
      a * b;
    <= { MulMonotonic(b, a, b); }
      b * b;
    }
  }

  lemma MulMonotonic(k: nat, a: nat, b: nat)
    requires a <= b
    ensures k * a <= k * b
  {
    assert k * b == k * a + k * (b - a);
  }

  /**
   Upward search for the integer ceiling of the square root of `n`, starting
   from a candidate `s` whose predecessor is already known to be too small.
   */
  function CeilSqrtFrom(n: nat, s: nat): (r: nat)
    requires s == 0 || Square(s - 1) < n
    ensures Square(r) >= n
    ensures r == 0 || Square(r - 1) < n
    ensures s <= r
    decreases n - s
  {
    if Square(s) >= n then s
    else
      assert s < n by {
        if s > 0 { MulMonotonic(s, 1, s); }
      }
      CeilSqrtFrom(n, s + 1)
  }

  /**
   The side of the state texture for `count` particles, `Math.ceil(Math.sqrt(count))`
   computed exactly: the grid holds every particle, and one row and column
   fewer would not.
   */
  function GridSize(count: nat): (size: nat)
    ensures Square(size) >= count
    ensures count > 0 ==> size > 0 && Square(size - 1) < count
    ensures count == 0 ==> size == 0
  {
    CeilSqrtFrom(count, 0)
  }

  /** No smaller square grid holds `count` particles: GridSize is the least such side. */
  lemma GridSizeIsLeast(count: nat, s: nat)
    requires Square(s) >= count
    ensures GridSize(count) <= s
  {
    var size := GridSize(count);
    if s < size {
      SquareMonotonic(s, size - 1);
      assert false;
    }
  }

  /** The two defining properties of the ceiling square root determine it uniquely. */
  lemma GridSizeUnique(count: nat, s: nat)
    requires Square(s) >= count
    requires s == 0 || Square(s - 1) < count
    ensures GridSize(count) == s
  {
    GridSizeIsLeast(count, s);
    var size := GridSize(count);
    if size < s {
      SquareMonotonic(size, s - 1);
      assert false;
    }
  }

  /** Concrete sides: an 8 x 8 grid for 64 particles, one more row and column as soon as a particle overflows it. */
  lemma GridSizeExamples()
    ensures GridSize(0) == 0 && GridSize(1) == 1 && GridSize(2) == 2
    ensures GridSize(64) == 8 && GridSize(65) == 9
  {
  }

  /** One texel of the state texture: four packed floating-point channels. */
  datatype Texel = Texel(r: real, g: real, b: real, a: real)

  /** The texel of particle `i` in a flat RGBA buffer. */
  function TexelAt(data: seq<real>, i: nat): Texel
    requires 4 * i + 3 < |data|
  {
    Texel(data[4 * i], data[4 * i + 1], data[4 * i + 2], data[4 * i + 3])
  }

  /** What seeding puts into particle `i`'s texel: its position from the flat 3-stride array, then its random value. */
  function SeedTexel(positions: seq<real>, randoms: seq<real>, i: nat): Texel
    requires 3 * i + 2 < |positions| && i < |randoms|
  {
    Texel(positions[3 * i], positions[3 * i + 1], positions[3 * i + 2], randoms[i])
  }

  /** Every value drawn from the random source lies in `[0, 1)`, as `Math.random` promises. */
  predicate AllUnitRandoms(randoms: seq<real>)
  {
    forall k :: 0 <= k < |randoms| ==> 0.0 <= randoms[k] < 1.0
  }

  /** Channel `c` of the seeded texel of particle `i`. */
  function SeedChannel(positions: seq<real>, randoms: seq<real>, i: nat, c: nat): real
    requires 3 * i + 2 < |positions| && i < |randoms| && c < 4
  {
    if c < 3 then positions[3 * i + c] else randoms[i]
  }

  /**
   The texture buffer after seeding `count` particles into `init`: the first
   `count` texels hold the particles in index order, and every later slot
   (the padding texels of the square grid) keeps its initial contents.
   */
  function SeededTexture(init: seq<real>, positions: seq<real>, randoms: seq<real>, count: nat): (t: seq<real>)
    requires 4 * count <= |init|
    requires |positions| == 3 * count
    requires count <= |randoms|
    ensures |t| == |init|
    ensures forall i :: 0 <= i < count ==> TexelAt(t, i) == SeedTexel(positions, randoms, i)
    ensures forall k :: 4 * count <= k < |t| ==> t[k] == init[k]
    ensures AllUnitRandoms(randoms) ==> forall i :: 0 <= i < count ==> 0.0 <= TexelAt(t, i).a < 1.0
  {
    var t := seq(|init|, k requires 0 <= k < |init| =>
      if k < 4 * count then SeedChannel(positions, randoms, k / 4, k % 4) else init[k]);
    assert forall i :: 0 <= i < count ==> TexelAt(t, i) == SeedTexel(positions, randoms, i) by {
      forall i | 0 <= i < count
        ensures TexelAt(t, i) == SeedTexel(positions, randoms, i)
      {
        assert (4 * i) / 4 == i && (4 * i) % 4 == 0;
        assert (4 * i + 1) / 4 == i && (4 * i + 1) % 4 == 1;
        assert (4 * i + 2) / 4 == i && (4 * i + 2) % 4 == 2;
        assert (4 * i + 3) / 4 == i && (4 * i + 3) % 4 == 3;
      }
    }
    t
  }

  /**
   Every slot the seeding loop touches is in bounds: the reads of particle `i`
   stay inside the position array of length `3*count`, and its four writes stay
   inside the `size*size*4` buffer that the texture was created with.
   */
  lemma SeedSlotsInBounds(count: nat, i: nat)
    requires i < count
    ensures 3 * i + 2 < 3 * count
    ensures 4 * i + 3 < 4 * Square(GridSize(count))
  {
  }

  /** The whole seeded prefix of `4*count` slots fits in the texture. */
  lemma SeedFits(count: nat)
    ensures 4 * count <= 4 * Square(GridSize(count))
  {
  }

  /**
   The seeding loop: for each particle `i < count`, copy its three coordinates
   from offset `3*i` of the position array into offset `4*i` of the texture
   buffer and store one fresh random value in the fourth channel. `data` is the
   buffer the computation renderer created, of `4*size*size` slots.
   */
  method Seed(data: array<real>, positions: seq<real>, randoms: seq<real>, count: nat)
    requires data.Length == 4 * Square(GridSize(count))
    requires |positions| == 3 * count
    requires count <= |randoms|
    modifies data
    ensures data[..] == SeededTexture(old(data[..]), positions, randoms, count)
  {
    SeedFits(count);
    ghost var init := data[..];
    ghost var target := SeededTexture(init, positions, randoms, count);
    for i := 0 to count
      // particles already seeded hold their final texels; no later iteration touches them
      invariant forall k :: 0 <= k < 4 * i ==> data[k] == target[k]
      // slots from the current particle on still hold their initial contents
      invariant forall k :: 4 * i <= k < data.Length ==> data[k] == init[k]
    {
      SeedSlotsInBounds(count, i);
      var i3 := i * 3;
      var i4 := i * 4;
      data[i4] := positions[i3];
      data[i4 + 1] := positions[i3 + 1];
      data[i4 + 2] := positions[i3 + 2];
      data[i4 + 3] := randoms[i];
      assert TexelAt(target, i) == SeedTexel(positions, randoms, i);
    }
    assert data[..] == target;
  }
}
