/**
 * The orientation lookup table `EulerAngles` of missile.ts.
 *
 * `from` turns an xy angle and a z angle (radians) into an integer key and reads
 * the yaw, pitch and roll stored at that key; `initAngles` stores the angles of
 * a direction vector at a key. Angles are exact reals here. The two values of
 * pi that the code mixes are kept apart: `Math.PI` scales the angles, while the
 * bucket widths `xyDelta` and `zDelta` are built from the host constant `bj_PI`.
 */
module Orientation {

  /** Number of azimuth buckets, `XY_STEPS`. */
  const XY_STEPS: int := 420
  /** Number of elevation buckets, `Z_STEPS`. */
  const Z_STEPS: int := 270
  /** The host's `bj_PI`, a five-decimal approximation of pi. */
  const BJ_PI: real := 3.14159
  /** JavaScript's `Math.PI`, the double nearest pi, to sixteen digits. */
  const MATH_PI: real := 3.141592653589793
  /** Width of one azimuth bucket, `xyDelta = 2 * bj_PI / XY_STEPS`. */
  const XY_DELTA: real := 2.0 * BJ_PI / XY_STEPS as real
  /** Width of one elevation bucket, `zDelta = 2 * bj_PI / Z_STEPS`. */
  const Z_DELTA: real := 2.0 * BJ_PI / Z_STEPS as real

  /** `R2I`: conversion of a real to an integer, truncating toward zero. */
  function R2I(r: real): (i: int)
    ensures r >= 0.0 ==> 0 <= i && i as real <= r < i as real + 1.0
    ensures r < 0.0 ==> i <= 0 && i as real - 1.0 < r <= i as real
  {
    if r >= 0.0 then r.Floor else -((-r).Floor)
  }

  /**
   * JavaScript's `%` on numbers with a positive divisor: the remainder of a
   * division truncated toward zero, so it takes the sign of the dividend.
   */
  function JsRemainder(x: real, m: real): (r: real)
    requires m > 0.0
    ensures x >= 0.0 ==> 0.0 <= r < m
    ensures x < 0.0 ==> -m < r <= 0.0
    ensures -m < x < m ==> r == x
  {
    var q := R2I(x / m);
    QuotientInUnit(x, m);
    if x >= 0.0 then
      ScaledFloorBounds(x, m, q as real);
      x - m * q as real
    else
      ScaledCeilingBounds(x, m, q as real);
      x - m * q as real
  }

  /** A dividend strictly inside (-m, m) has a quotient strictly inside (-1, 1). */
  lemma QuotientInUnit(x: real, m: real)
    requires m > 0.0
    ensures -m < x < m ==> -1.0 < x / m < 1.0
  {
    var y := x / m;
    assert x == y * m;
    if y >= 1.0 {
      MulLe(1.0, y, m);
    } else if y <= -1.0 {
      MulLe(y, -1.0, m);
    }
  }

  /** `R2I` is odd: truncation toward zero commutes with negation. */
  lemma R2IOdd(r: real)
    ensures R2I(-r) == -R2I(r)
  {
  }

  /** `%` takes the sign of the dividend: negating the dividend negates the remainder. */
  lemma JsRemainderOdd(x: real, m: real)
    requires m > 0.0
    ensures JsRemainder(-x, m) == -JsRemainder(x, m)
  {
    var q := x / m;
    assert -x == (-q) * m;
    DivOfProduct(-q, m, -x);
    R2IOdd(q);
    var k := R2I(q) as real;
    assert m * -k == -(m * k);
  }

  /**
   * `%` repeats with period `m` on each side of zero: shifting a non-negative
   * dividend up by `m`, or a non-positive one down by `m`, keeps the remainder.
   */
  lemma JsRemainderPeriodic(x: real, m: real)
    requires m > 0.0
    ensures x >= 0.0 ==> JsRemainder(x + m, m) == JsRemainder(x, m)
    ensures x <= 0.0 ==> JsRemainder(x - m, m) == JsRemainder(x, m)
  {
    if x >= 0.0 {
      WrapFullTurn(x, m);
    }
    if x <= 0.0 {
      WrapFullTurn(-x, m);
      JsRemainderOdd(x - m, m);
      JsRemainderOdd(x, m);
      assert -(x - m) == -x + m;
    }
  }

  /** Multiplying `q <= x / m < q + 1` by a positive `m`. */
  lemma ScaledFloorBounds(x: real, m: real, q: real)
    requires m > 0.0
    requires q <= x / m
    requires x / m < q + 1.0
    ensures q * m <= x
    ensures x < q * m + m
  {
    var y := x / m;
    assert x == y * m;
    MulLe(q, y, m);
    MulLt(y, q + 1.0, m);
    calc {
      x;
    ==
      y * m;
    <
      (q + 1.0) * m;
    ==
      q * m + m;
    }
  }

  /** Multiplying `q - 1 < x / m <= q` by a positive `m`. */
  lemma ScaledCeilingBounds(x: real, m: real, q: real)
    requires m > 0.0
    requires q - 1.0 < x / m
    requires x / m <= q
    ensures q * m - m < x
    ensures x <= q * m
  {
    var y := x / m;
    assert x == y * m;
    MulLe(y, q, m);
    MulLt(q - 1.0, y, m);
    calc {
      q * m - m;
    ==
      (q - 1.0) * m;
    <
      y * m;
    ==
      x;
    }
    calc {
      x;
    ==
      y * m;
    <=
      q * m;
    }
  }

  lemma MulLe(a: real, b: real, m: real)
    requires m > 0.0 && a <= b
    ensures a * m <= b * m
  {
    assert b * m - a * m == (b - a) * m;
  }

  lemma MulLt(a: real, b: real, m: real)
    requires m > 0.0 && a < b
    ensures a * m < b * m
  {
    assert b * m - a * m == (b - a) * m;
  }

  /**
   * The azimuth bucket of `from`, as written: `xyAngle % 2.00 * Math.PI`
   * parses as `(xyAngle % 2) * Math.PI`, which is then divided by `xyDelta`.
   */
  function XyBucket(xyAngle: real): (b: int)
    ensures xyAngle >= 0.0 ==> 0 <= b <= XY_STEPS
  {
    R2I(JsRemainder(xyAngle, 2.0) * MATH_PI / XY_DELTA)
  }

  /** The elevation bucket of `from`, as written: `(zAngle % 2) * Math.PI / zDelta`. */
  function ZBucket(zAngle: real): (b: int)
    ensures zAngle >= 0.0 ==> 0 <= b <= Z_STEPS
  {
    R2I(JsRemainder(zAngle, 2.0) * MATH_PI / Z_DELTA)
  }

  /** The table key of an (elevation, azimuth) bucket pair: `zBucket * XY_STEPS + xyBucket`. */
  function KeyOf(zBucket: int, xyBucket: int): int
  {
    zBucket * XY_STEPS + xyBucket
  }

  /**
   * The key `from` computes, as written. For non-negative angles it lies in
   * [0, Z_STEPS * XY_STEPS + XY_STEPS]: both bucket ranges include their upper
   * end, because `Math.PI` is a little larger than `bj_PI`.
   */
  function Key(xyAngle: real, zAngle: real): (key: int)
    ensures xyAngle >= 0.0 && zAngle >= 0.0 ==> 0 <= key <= Z_STEPS * XY_STEPS + XY_STEPS
  {
    KeyOf(ZBucket(zAngle), XyBucket(xyAngle))
  }

  /**
   * Bucket pairs whose azimuth bucket is below `XY_STEPS` are recovered from
   * their key by `/` and `%`, so distinct such pairs have distinct keys.
   */
  lemma KeySplits(zBucket: int, xyBucket: int)
    ensures 0 <= xyBucket < XY_STEPS ==>
              KeyOf(zBucket, xyBucket) / XY_STEPS == zBucket &&
              KeyOf(zBucket, xyBucket) % XY_STEPS == xyBucket
  {
  }

  lemma KeyInjective(z1: int, xy1: int, z2: int, xy2: int)
    requires 0 <= xy1 < XY_STEPS && 0 <= xy2 < XY_STEPS
    requires KeyOf(z1, xy1) == KeyOf(z2, xy2)
    ensures z1 == z2 && xy1 == xy2
  {
    KeySplits(z1, xy1);
    KeySplits(z2, xy2);
  }

  /** The angle in the middle of azimuth bucket `b` under the as-written scaling. */
  function XyCenter(b: int): real
  {
    (b as real + 0.5) * XY_DELTA / MATH_PI
  }

  /** The angle in the middle of elevation bucket `b` under the as-written scaling. */
  function ZCenter(b: int): real
  {
    (b as real + 0.5) * Z_DELTA / MATH_PI
  }

  /**
   * Every bucket pair of the table is reached, and from the middle of each
   * bucket `from` computes that pair's own key.
   */
  lemma CentersRoundTrip(zBucket: int, xyBucket: int)
    requires 0 <= zBucket < Z_STEPS && 0 <= xyBucket < XY_STEPS
    ensures Key(XyCenter(xyBucket), ZCenter(zBucket)) == KeyOf(zBucket, xyBucket)
  {
    XyCenterBucket(xyBucket);
    ZCenterBucket(zBucket);
  }

  lemma XyCenterBucket(b: int)
    requires 0 <= b < XY_STEPS
    ensures XyBucket(XyCenter(b)) == b
  {
    var c := XyCenter(b);
    assert 0.0 <= c < 2.0;
    assert JsRemainder(c, 2.0) == c;
    assert c * MATH_PI / XY_DELTA == b as real + 0.5;
  }

  lemma ZCenterBucket(b: int)
    requires 0 <= b < Z_STEPS
    ensures ZBucket(ZCenter(b)) == b
  {
    var c := ZCenter(b);
    assert 0.0 <= c < 2.0;
    assert JsRemainder(c, 2.0) == c;
    assert c * MATH_PI / Z_DELTA == b as real + 0.5;
  }

  /**
   * As written, `xyAngle % 2.00 * Math.PI` wraps the angle modulo 2 before
   * scaling it by pi: the directions 1 and 3 radians (about 57 and 172
   * degrees) share an azimuth bucket, while wrapping modulo 2 pi keeps them
   * apart.
   */
  lemma PrecedenceMergesDirections()
    ensures XyBucket(1.0) == XyBucket(3.0) == 210
    ensures IntendedXyBucket(1.0) == 66 && IntendedXyBucket(3.0) == 200
  {
  }

  /**
   * As written, the azimuth bucket of 1.999999 is 420 (one past the last), so
   * the pair (0, 420) gets key 420, the key of the pair (1, 0) that the angles
   * (0, 0.01) produce: two different directions read the same table slot.
   */
  lemma MixedPiKeyCollision()
    ensures XyBucket(1.999999) == XY_STEPS && ZBucket(0.0) == 0
    ensures XyBucket(0.0) == 0 && ZBucket(0.01) == 1
    ensures Key(1.999999, 0.0) == Key(0.0, 0.01)
  {
  }

  /** The host's `ModuloReal`: the remainder of a floored division, always in [0, m). */
  function Wrap(x: real, m: real): (r: real)
    requires m > 0.0
    ensures 0.0 <= r < m
    ensures x >= 0.0 ==> r == JsRemainder(x, m)
    ensures 0.0 <= x < m ==> r == x
  {
    var q := (x / m).Floor;
    QuotientInUnit(x, m);
    ScaledFloorBounds(x, m, q as real);
    x - m * q as real
  }

  /** The azimuth bucket with the angle wrapped modulo `2 * bj_PI`, the pi of `xyDelta`. */
  function IntendedXyBucket(xyAngle: real): (b: int)
    ensures 0 <= b < XY_STEPS
  {
    R2I(Wrap(xyAngle, 2.0 * BJ_PI) / XY_DELTA)
  }

  /** The elevation bucket with the angle wrapped modulo `2 * bj_PI`, the pi of `zDelta`. */
  function IntendedZBucket(zAngle: real): (b: int)
    ensures 0 <= b < Z_STEPS
  {
    R2I(Wrap(zAngle, 2.0 * BJ_PI) / Z_DELTA)
  }

  /**
   * The key `from` evidently means to compute: it lies in [0, Z_STEPS * XY_STEPS)
   * for every pair of angles, and `/` and `%` give both buckets back.
   */
  function IntendedKey(xyAngle: real, zAngle: real): (key: int)
    ensures 0 <= key < Z_STEPS * XY_STEPS
    ensures key / XY_STEPS == IntendedZBucket(zAngle)
    ensures key % XY_STEPS == IntendedXyBucket(xyAngle)
  {
    var zb, xb := IntendedZBucket(zAngle), IntendedXyBucket(xyAngle);
    KeySplits(zb, xb);
    KeyOf(zb, xb)
  }

  /** Turning a direction a whole turn further does not change its intended buckets. */
  lemma IntendedKeyFullTurn(xyAngle: real, zAngle: real)
    ensures IntendedKey(xyAngle + 2.0 * BJ_PI, zAngle) == IntendedKey(xyAngle, zAngle)
    ensures IntendedKey(xyAngle, zAngle + 2.0 * BJ_PI) == IntendedKey(xyAngle, zAngle)
  {
    WrapFullTurn(xyAngle, 2.0 * BJ_PI);
    WrapFullTurn(zAngle, 2.0 * BJ_PI);
  }

  lemma WrapFullTurn(x: real, m: real)
    requires m > 0.0
    ensures Wrap(x + m, m) == Wrap(x, m)
  {
    var y := x / m;
    assert x == y * m;
    DivOfProduct(y + 1.0, m, x + m);
    var k := y.Floor;
    assert (y + 1.0).Floor == k + 1;
    assert Wrap(x + m, m) == x + m - m * (k + 1) as real;
    assert m * (k + 1) as real == m * k as real + m;
  }

  lemma DivOfProduct(a: real, m: real, p: real)
    requires m > 0.0 && p == a * m
    ensures p / m == a
  {
  }

  /** From the middle of each bucket, the intended key is that bucket pair's own key. */
  lemma IntendedCentersRoundTrip(zBucket: int, xyBucket: int)
    requires 0 <= zBucket < Z_STEPS && 0 <= xyBucket < XY_STEPS
    ensures IntendedKey((xyBucket as real + 0.5) * XY_DELTA, (zBucket as real + 0.5) * Z_DELTA)
         == KeyOf(zBucket, xyBucket)
  {
    IntendedXyCenterBucket(xyBucket);
    IntendedZCenterBucket(zBucket);
  }

  lemma IntendedXyCenterBucket(b: int)
    requires 0 <= b < XY_STEPS
    ensures IntendedXyBucket((b as real + 0.5) * XY_DELTA) == b
  {
    var c := (b as real + 0.5) * XY_DELTA;
    assert 0.0 <= c / (2.0 * BJ_PI) < 1.0;
    assert Wrap(c, 2.0 * BJ_PI) == c;
    assert c / XY_DELTA == b as real + 0.5;
  }

  lemma IntendedZCenterBucket(b: int)
    requires 0 <= b < Z_STEPS
    ensures IntendedZBucket((b as real + 0.5) * Z_DELTA) == b
  {
    var c := (b as real + 0.5) * Z_DELTA;
    assert 0.0 <= c / (2.0 * BJ_PI) < 1.0;
    assert Wrap(c, 2.0 * BJ_PI) == c;
    assert c / Z_DELTA == b as real + 0.5;
  }

  /** Yaw, pitch and roll, in radians. */
  datatype Euler = Euler(yaw: real, pitch: real, roll: real)

  /** What `from` computes: the key and the three values stored there. */
  datatype Lookup = Lookup(key: int, angles: Euler)

  /** A read of one table slot; a slot never written holds 0.0. */
  function Slot(table: map<int, real>, key: int): real
  {
    if key in table then table[key] else 0.0
  }

  /** The real division `dz / norm` by a positive norm keeps the sign of `dz`. */
  lemma DivisionKeepsSign(dz: real, norm: real)
    requires norm > 0.0
    ensures dz / norm > 0.0 <==> dz > 0.0
    ensures dz / norm == 0.0 <==> dz == 0.0
  {
    DivOfProduct(dz / norm, norm, dz);
    if dz / norm > 0.0 {
      MulLt(0.0, dz / norm, norm);
    } else if dz / norm < 0.0 {
      MulLt(dz / norm, 0.0, norm);
    }
  }

  /**
   * The two tests of `initAngles` in terms of the direction's components:
   * `dx*dx + dy*dy` (its `N`) is positive exactly when the direction has a
   * horizontal part, and the squared length is positive exactly when the
   * direction is not the zero vector. Neither is ever negative.
   */
  lemma NormSigns(dx: real, dy: real, dz: real)
    ensures dx * dx + dy * dy >= 0.0
    ensures dx * dx + dy * dy > 0.0 <==> dx != 0.0 || dy != 0.0
    ensures dx * dx + dy * dy + dz * dz > 0.0 <==> dx != 0.0 || dy != 0.0 || dz != 0.0
  {
    if dx != 0.0 || dy != 0.0 {
      assert dx * dx + dy * dy > 0.0 by {
        if dx != 0.0 {
          assert dx * dx > 0.0;
          assert dy * dy >= 0.0;
        } else {
          assert dx * dx == 0.0;
          assert dy * dy > 0.0;
        }
      }
      assert dz * dz >= 0.0;
      assert dx * dx + dy * dy + dz * dz > 0.0;
    } else {
      assert dx * dx + dy * dy == 0.0;
      if dz != 0.0 {
        assert dz * dz > 0.0;
        assert dx * dx + dy * dy + dz * dz > 0.0;
      } else {
        assert dx * dx + dy * dy + dz * dz == 0.0;
      }
    }
  }

  /**
   * The static state of `EulerAngles`: `angleTable`, three tables indexed by key
   * holding the yaw (0), the pitch (1) and the roll (2) of each bucket.
   */
  class EulerAngles {
    var angleTable: seq<map<int, real>>

    predicate Valid()
      reads this
    {
      |angleTable| == 3
    }

    /** Three empty tables. */
    constructor ()
      ensures Valid()
      ensures forall i, k :: 0 <= i < 3 ==> Slot(angleTable[i], k) == 0.0
    {
      angleTable := [map[], map[], map[]];
    }

    /** The yaw, pitch and roll stored at `key`. */
    function AnglesAt(key: int): Euler
      reads this
      requires Valid()
    {
      Euler(Slot(angleTable[0], key), Slot(angleTable[1], key), Slot(angleTable[2], key))
    }

    /**
     * `from(xyAngle, zAngle)`: the key of the two angles, and the yaw, pitch and
     * roll stored under it. It only reads the tables.
     */
    function From(xyAngle: real, zAngle: real): (r: Lookup)
      reads this
      requires Valid()
      ensures r.key == Key(xyAngle, zAngle) && r.angles == AnglesAt(r.key)
      ensures xyAngle >= 0.0 && zAngle >= 0.0 ==> 0 <= r.key <= Z_STEPS * XY_STEPS + XY_STEPS
      ensures 0 <= XyBucket(xyAngle) < XY_STEPS ==>
                r.key / XY_STEPS == ZBucket(zAngle) && r.key % XY_STEPS == XyBucket(xyAngle)
    {
      var xb, zb := XyBucket(xyAngle), ZBucket(zAngle);
      KeySplits(zb, xb);
      Lookup(KeyOf(zb, xb), AnglesAt(KeyOf(zb, xb)))
    }

    /**
     * `from` as evidently intended: the same three reads, at `IntendedKey`, a key
     * inside the table that names one bucket pair only.
     */
    function IntendedFrom(xyAngle: real, zAngle: real): (r: Lookup)
      reads this
      requires Valid()
      ensures r.angles == AnglesAt(r.key)
      ensures 0 <= r.key < Z_STEPS * XY_STEPS
      ensures r.key / XY_STEPS == IntendedZBucket(zAngle) && r.key % XY_STEPS == IntendedXyBucket(xyAngle)
    {
      var key := IntendedKey(xyAngle, zAngle);
      Lookup(key, AnglesAt(key))
    }

    /**
     * `initAngles(key, dx, dy, dz)`. `N` is `dx*dx + dy*dy` and `norm` starts as
     * the squared length; `root` is the host's square root of that squared
     * length. A zero `norm` writes nothing. A zero `N` with a nonzero `norm` (a
     * vertical direction, by `NormSigns`) writes yaw 0, roll 0 and a pitch of
     * -pi/2 when the direction points up and pi/2 when it points down, at `key`
     * only. Any other direction writes nothing.
     */
    method InitAngles(key: int, dx: real, dy: real, dz: real, root: real)
      requires Valid()
      requires root >= 0.0 && root * root == dx * dx + dy * dy + dz * dz
      modifies this
      ensures Valid()
      ensures dx * dx + dy * dy + dz * dz == 0.0 ==> angleTable == old(angleTable)
      ensures dx * dx + dy * dy != 0.0 ==> angleTable == old(angleTable)
      ensures dx * dx + dy * dy == 0.0 && dx * dx + dy * dy + dz * dz != 0.0 ==>
                angleTable == [old(angleTable[0])[key := 0.0],
                               old(angleTable[1])[key := if dz > 0.0 then -BJ_PI * 0.5 else BJ_PI * 0.5],
                               old(angleTable[2])[key := 0.0]]
      ensures dx * dx + dy * dy == 0.0 && dx * dx + dy * dy + dz * dz != 0.0 ==>
                AnglesAt(key) == Euler(0.0, if dz > 0.0 then -BJ_PI * 0.5 else BJ_PI * 0.5, 0.0)
      ensures dx != 0.0 || dy != 0.0 ==> angleTable == old(angleTable)
      ensures forall i, k :: 0 <= i < 3 && k != key ==> Slot(angleTable[i], k) == Slot(old(angleTable[i]), k)
    {
      var n := dx * dx + dy * dy;
      var norm := n + dz * dz;
      if norm == 0.0 {
        return;
      }
      norm := 1.00001 * root;
      var x, y, z := dx / norm, dy / norm, dz / norm;
      if n == 0.0 {
        DivisionKeepsSign(dz, norm);
        angleTable := angleTable[0 := angleTable[0][key := 0.0]];
        angleTable := angleTable[2 := angleTable[2][key := 0.0]];
        if z > 0.0 {
          angleTable := angleTable[1 := angleTable[1][key := -BJ_PI * 0.5]];
        } else {
          angleTable := angleTable[1 := angleTable[1][key := BJ_PI * 0.5]];
        }
        return;
      }
      NormSigns(dx, dy, dz);
    }
  }
}
