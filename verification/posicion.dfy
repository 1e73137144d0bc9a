/** Immutable (x, y) grid coordinate of the simulator (Posicion.java).
    Coordinates are Java `int`s, so the translation `mover` wraps around
    modulo 2^32 exactly as Java's `+` on `int` does. */
module Posiciones {

  /** Java's 32-bit signed `int`. */
  newtype int32 = v: int | -0x8000_0000 <= v < 0x8000_0000

  const MODULUS: int := 0x1_0000_0000

  /** True iff `v` is representable as a Java `int` without wrapping. */
  predicate InRange32(v: int) {
    -0x8000_0000 <= v < 0x8000_0000
  }

  /** The value a Java `int` addition produces for the mathematical sum `v`:
      the unique representable value congruent to `v` modulo 2^32. */
  function Wrap(v: int): (r: int32)
    ensures InRange32(v) ==> r as int == v
    ensures (r as int - v) % MODULUS == 0
  {
    var m := (v + 0x8000_0000) % MODULUS;
    assert m - (v + 0x8000_0000) == -MODULUS * ((v + 0x8000_0000) / MODULUS);
    (m - 0x8000_0000) as int32
  }

  /** Adding a multiple of 2^32 leaves the remainder modulo 2^32 unchanged. */
  lemma {:induction false} ModShift(v: int, k: int)
    ensures (v + 0x1_0000_0000 * k) % 0x1_0000_0000 == v % 0x1_0000_0000
    decreases if k < 0 then -k else k
  {
    if k > 0 {
      ModShift(v, k - 1);
    } else if k < 0 {
      ModShift(v, k + 1);
    }
  }

  /** The difference of two multiples of 2^32 is a multiple of 2^32. */
  lemma MultipleDiff(s: int, t: int)
    requires s % MODULUS == 0 && t % MODULUS == 0
    ensures (s - t) % MODULUS == 0
  {
    ModShift(0, s / 0x1_0000_0000 - t / 0x1_0000_0000);
    assert s - t == 0x1_0000_0000 * (s / 0x1_0000_0000 - t / 0x1_0000_0000);
  }

  /** Sums congruent modulo 2^32 wrap to the same Java `int`. */
  lemma WrapCongruent(u: int, v: int)
    requires (u - v) % MODULUS == 0
    ensures Wrap(u) == Wrap(v)
  {
    var k := (u - v) / 0x1_0000_0000;
    assert u + 0x8000_0000 == v + 0x8000_0000 + 0x1_0000_0000 * k;
    ModShift(v + 0x8000_0000, k);
  }

  /** A grid cell, value-equal by coordinates; `x` and `y` are `getX`/`getY`. */
  datatype Posicion = Posicion(x: int32, y: int32)
  {
    /** `dentroLimites(maxX, maxY)`: inside the rectangle [0, maxX) x [0, maxY). */
    predicate DentroLimites(maxX: int32, maxY: int32)
      ensures DentroLimites(maxX, maxY) ==> 0 < maxX && 0 < maxY
    {
      (x >= 0 && x < maxX) && (y >= 0 && y < maxY)
    }

    /** `mover(deltaX, deltaY)`: a new position translated by the deltas, with
        Java `int` addition; the receiver, being a value, is untouched. */
    function Mover(deltaX: int32, deltaY: int32): (q: Posicion)
      ensures (q.x as int - (x as int + deltaX as int)) % MODULUS == 0
      ensures (q.y as int - (y as int + deltaY as int)) % MODULUS == 0
      ensures (InRange32(x as int + deltaX as int) && InRange32(y as int + deltaY as int))
                ==> q.x as int == x as int + deltaX as int && q.y as int == y as int + deltaY as int
    {
      Posicion(Wrap(x as int + deltaX as int), Wrap(y as int + deltaY as int))
    }
  }

  /** No position lies inside a rectangle with a non-positive side. */
  lemma DentroLimitesVacio(p: Posicion, maxX: int32, maxY: int32)
    requires maxX <= 0 || maxY <= 0
    ensures !p.DentroLimites(maxX, maxY)
  {
  }

  /** `dentroLimites` is exactly membership in [0, maxX) x [0, maxY),
      stated in both directions over mathematical integers. */
  lemma DentroLimitesIff(p: Posicion, maxX: int32, maxY: int32)
    ensures p.DentroLimites(maxX, maxY)
            <==> (0 <= p.x as int < maxX as int && 0 <= p.y as int < maxY as int)
  {
  }

  /** Moving by (0, 0) gives back the same coordinates. */
  lemma MoverCero(p: Posicion)
    ensures p.Mover(0, 0) == p
  {
  }

  /** Two translations compose into one by the (Java-wrapped) sum of the
      deltas; this holds even when some of the additions overflow. */
  lemma {:induction false} MoverCompone(p: Posicion, a: int32, b: int32, c: int32, d: int32)
    ensures p.Mover(a, b).Mover(c, d) == p.Mover(Wrap(a as int + c as int), Wrap(b as int + d as int))
  {
    var q := p.Mover(a, b);
    var ac, bd := Wrap(a as int + c as int), Wrap(b as int + d as int);
    var sx, tx := q.x as int - (p.x as int + a as int), ac as int - (a as int + c as int);
    var sy, ty := q.y as int - (p.y as int + b as int), bd as int - (b as int + d as int);
    MultipleDiff(sx, tx);
    MultipleDiff(sy, ty);
    assert (q.x as int + c as int) - (p.x as int + ac as int) == sx - tx;
    assert (q.y as int + d as int) - (p.y as int + bd as int) == sy - ty;
    WrapCongruent(q.x as int + c as int, p.x as int + ac as int);
    WrapCongruent(q.y as int + d as int, p.y as int + bd as int);
  }
}
