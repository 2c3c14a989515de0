/**
 * The data the emitter is seeded with and the noise bytes the update kernel
 * samples: the two places the code draws on `Math.random()`.
 */
module Seed {
  import opened Numeric
  import opened Layout

  /**
   * Successive results of `Math.random()` within one operation: that operation's
   * k-th call (from 0) returns `rand(k)`.
   */
  type Random = nat -> real

  /** The first n draws lie in [0, 1), as `Math.random()` promises. */
  predicate UnitDraws(rand: Random, n: nat) {
    forall k :: 0 <= k < n ==> 0.0 <= rand(k) < 1.0
  }

  /** Iterations of `for _ in 0..n` over an `i32` n. */
  function LoopCount(n: int): nat {
    if n < 0 then 0 else n
  }

  /** Records seeded, updated and drawn for `num_particles`, which the code casts to `i32` each time. */
  function ParticleCount(numParticles: U32): (count: nat)
    ensures numParticles <= I32Max ==> count == numParticles
    ensures numParticles > I32Max ==> count == 0
  {
    LoopCount(U32AsI32(numParticles))
  }

  /** The life drawn for a seeded particle from one random draw r. */
  function SeedLife(minAge: real, maxAge: real, r: real): real {
    minAge + r * (maxAge - minAge)
  }

  /** A draw in [0, 1) puts the life in [minAge, maxAge), or exactly at minAge when the bounds meet. */
  lemma SeedLifeBounds(minAge: real, maxAge: real, r: real)
    requires 0.0 <= r < 1.0
    requires minAge <= maxAge
    ensures minAge <= SeedLife(minAge, maxAge, r) <= maxAge
    ensures minAge < maxAge ==> SeedLife(minAge, maxAge, r) < maxAge
    ensures minAge == maxAge ==> SeedLife(minAge, maxAge, r) == minAge
  {
    var d := maxAge - minAge;
    var x := r * d;
    assert SeedLife(minAge, maxAge, r) == minAge + x;
    // x == d - (1 - r) * d, with both products non-negative
    ProductNonNegative(r, d);
    var y := (1.0 - r) * d;
    assert x + y == d;
    ProductNonNegative(1.0 - r, d);
    if 0.0 < d {
      ProductPositive(1.0 - r, d);
    }
  }

  /** Inverted bounds are not rejected: a draw in [0, 1) then puts the life in (maxAge, minAge]. */
  lemma SeedLifeInverted(minAge: real, maxAge: real, r: real)
    requires 0.0 <= r < 1.0
    requires maxAge < minAge
    ensures maxAge < SeedLife(minAge, maxAge, r) <= minAge
  {
    var d := maxAge - minAge;
    var x := r * d;
    assert SeedLife(minAge, maxAge, r) == minAge + x;
    assert d < x <= 0.0 by { ScaleNegative(r, d, x); }
  }

  /** The product x = r * d of a fraction r in [0, 1) and a negative d lies in (d, 0]. */
  lemma ScaleNegative(r: real, d: real, x: real)
    requires 0.0 <= r < 1.0 && d < 0.0
    requires x == r * d
    ensures d < x <= 0.0
  {
    // x == d - (1 - r) * d, with both products non-positive
    var y := (1.0 - r) * d;
    assert x + y == d;
    ProductNonPositive(r, d);
    ProductNegative(1.0 - r, d);
  }

  lemma ProductNonNegative(a: real, b: real)
    requires 0.0 <= a && 0.0 <= b
    ensures 0.0 <= a * b
  {
  }

  lemma ProductPositive(a: real, b: real)
    requires 0.0 < a && 0.0 < b
    ensures 0.0 < a * b
  {
  }

  lemma ProductNonPositive(a: real, b: real)
    requires 0.0 <= a && b <= 0.0
    ensures a * b <= 0.0
  {
  }

  lemma ProductNegative(a: real, b: real)
    requires 0.0 < a && b < 0.0
    ensures a * b < 0.0
  {
  }

  /** Seeded particles sit still at the origin and are already past their life. */
  function SeedParticle(life: real): Particle {
    Particle(Zero, life + 1.0, life, Zero)
  }

  /** Reference definition of `generate_initial_particle_data`: one seeded record per loop iteration. */
  function InitialParticleData(numParts: int, minAge: real, maxAge: real, rand: Random): (data: seq<real>)
    ensures |data| == Stride * LoopCount(numParts)
  {
    Flatten(SeedParticles(LoopCount(numParts), minAge, maxAge, rand))
  }

  function SeedParticles(n: nat, minAge: real, maxAge: real, rand: Random): (ps: seq<Particle>)
    ensures |ps| == n
  {
    seq(n, k requires 0 <= k < n => SeedParticle(SeedLife(minAge, maxAge, rand(k))))
  }

  /** `generate_initial_particle_data`: pushes eight floats per particle, drawing one random life each. */
  method GenerateInitialParticleData(numParts: int, minAge: real, maxAge: real, rand: Random)
    returns (data: seq<real>)
    ensures data == InitialParticleData(numParts, minAge, maxAge, rand)
  {
    data := [];
    var k := 0;
    while k < numParts
      invariant 0 <= k <= LoopCount(numParts)
      invariant data == Flatten(SeedParticles(k, minAge, maxAge, rand))
    {
      // position
      var record := [0.0, 0.0, 0.0];
      var life := SeedLife(minAge, maxAge, rand(k));
      // age is one past the life, so the first update respawns the particle
      record := record + [life + 1.0, life];
      // velocity
      record := record + [0.0, 0.0, 0.0];
      assert record == Encode(SeedParticle(life));
      assert SeedParticles(k + 1, minAge, maxAge, rand) == SeedParticles(k, minAge, maxAge, rand) + [SeedParticle(life)];
      FlattenAppend(SeedParticles(k, minAge, maxAge, rand), SeedParticle(life));
      data := data + record;
      k := k + 1;
    }
  }

  /**
   * Every seeded record has zero position and velocity, an age one past its
   * life, and a life drawn from [minAge, maxAge) when the draw is in [0, 1).
   */
  lemma InitialRecords(numParts: int, minAge: real, maxAge: real, rand: Random)
    ensures forall i :: 0 <= i < LoopCount(numParts) ==>
      var p := RecordAt(InitialParticleData(numParts, minAge, maxAge, rand), i);
      && p.position == Zero
      && p.velocity == Zero
      && p.age == p.life + 1.0
      && p.age > p.life
      && p.life == SeedLife(minAge, maxAge, rand(i))
    ensures UnitDraws(rand, LoopCount(numParts)) && minAge < maxAge ==>
      forall i :: 0 <= i < LoopCount(numParts) ==>
        minAge <= RecordAt(InitialParticleData(numParts, minAge, maxAge, rand), i).life < maxAge
  {
    var ps := SeedParticles(LoopCount(numParts), minAge, maxAge, rand);
    RecordAtFlatten(ps);
    if UnitDraws(rand, LoopCount(numParts)) && minAge < maxAge {
      forall i | 0 <= i < LoopCount(numParts)
        ensures minAge <= ps[i].life < maxAge
      {
        SeedLifeBounds(minAge, maxAge, rand(i));
      }
    }
  }

  /** One noise byte: `(Math.random() * 255.0) as u8`. */
  function NoiseByte(r: real): U8 {
    FloatToU8(r * 255.0)
  }

  /** A draw in [0, 1) gives the floor of 255 times the draw, which never exceeds 254. */
  lemma NoiseByteBounds(r: real)
    requires 0.0 <= r < 1.0
    ensures NoiseByte(r) <= 254
    ensures NoiseByte(r) == (r * 255.0).Floor
  {
    assert r * 255.0 < 255.0;
  }

  /** Reference definition of `generate_random_rg_data`: draw k becomes byte k. */
  function RandomRgData(width: nat, height: nat, rand: Random): (data: seq<U8>)
    ensures |data| == 2 * width * height
  {
    seq<U8>(2 * width * height, k requires 0 <= k < 2 * width * height => NoiseByte(rand(k)))
  }

  /** `generate_random_rg_data`: two bytes (red, green) per texel, one draw each. */
  method GenerateRandomRgData(width: nat, height: nat, rand: Random) returns (data: seq<U8>)
    ensures data == RandomRgData(width, height, rand)
    ensures UnitDraws(rand, 2 * width * height) ==> forall k :: 0 <= k < |data| ==> data[k] <= 254
  {
    data := [];
    var texels := width * height;
    var t := 0;
    while t < texels
      invariant 0 <= t <= texels
      invariant |data| == 2 * t
      invariant forall k :: 0 <= k < |data| ==> data[k] == NoiseByte(rand(k))
    {
      data := data + [NoiseByte(rand(2 * t))];
      data := data + [NoiseByte(rand(2 * t + 1))];
      t := t + 1;
    }
    if UnitDraws(rand, 2 * width * height) {
      forall k | 0 <= k < |data|
        ensures data[k] <= 254
      {
        NoiseByteBounds(rand(k));
      }
    }
  }
}
