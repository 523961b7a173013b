/** utils.rs: `truncate_to_size`, which cuts a discriminant down to the
    width of the tag field with a bit mask. */
module Utils {

  function Pow2(n: nat): (r: nat)
    ensures r > 0
  {
    if n == 0 then 1 else 2 * Pow2(n - 1)
  }

  /** Bitwise `&` of two non-negative integers, bit by bit from the lowest. */
  function BitAnd(a: nat, b: nat): nat
    decreases a
  {
    if a == 0 || b == 0 then 0
    else 2 * BitAnd(a / 2, b / 2) + (if a % 2 == 1 && b % 2 == 1 then 1 else 0)
  }

  /** `value & ((1 << (bytes * 8)) - 1)` on `u128`. The shift overflows
      `u128` once `bytes * 8 >= 128`, so only `bytes < 16` is meaningful. */
  function TruncateToSize(value: nat, bytes: nat): (r: nat)
    requires value < Pow2(128) && bytes < 16
    ensures r == value % Pow2(8 * bytes)
    ensures r < Pow2(8 * bytes) && r <= value
  {
    var mask := Pow2(8 * bytes) - 1;
    MaskIsMod(value, 8 * bytes);
    ModAtMost(value, Pow2(8 * bytes));
    BitAnd(value, mask)
  }

  lemma {:induction false} MulStep(d: nat, a: nat, b: nat)
    requires a <= b
    ensures d * a <= d * b
    decreases b - a
  {
    if a < b {
      MulStep(d, a, b - 1);
      assert d * b == d * (b - 1) + d;
    }
  }

  /** Stepping a factor up by one adds at least `d` to the product. */
  lemma MulCompare(d: nat, a: nat, b: nat)
    ensures a < b ==> d * a + d <= d * b
  {
    if a < b {
      MulStep(d, a + 1, b);
      assert d * (a + 1) == d * a + d;
    }
  }

  /** Quotient and remainder are unique. */
  lemma ModUnique(v: nat, d: nat, q: nat, r: nat)
    requires d > 0 && v == d * q + r && r < d
    ensures v % d == r && v / d == q
  {
    var q', r' := v / d, v % d;
    assert v == d * q' + r' && r' < d;
    MulCompare(d, q, q');
    MulCompare(d, q', q);
  }

  /** One bit off the bottom: `v % 2p` is twice `(v / 2) % p` plus the low bit. */
  lemma ModDouble(v: nat, p: nat)
    requires p > 0
    ensures v % (2 * p) == 2 * ((v / 2) % p) + v % 2
  {
    var s := (v / 2) % p;
    var t := (v / 2) / p;
    assert v / 2 == p * t + s;
    assert 2 * (p * t) == (2 * p) * t;
    assert v == (2 * p) * t + (2 * s + v % 2);
    ModUnique(v, 2 * p, t, 2 * s + v % 2);
  }

  lemma ModAtMost(v: nat, d: nat)
    requires d > 0
    ensures v % d <= v
  {
    if v < d {
      ModUnique(v, d, 0, v);
    } else {
      MulStep(d, 1, v / d);
    }
  }

  /** Masking with `2^k - 1` keeps exactly the low `k` bits. */
  lemma {:induction false} MaskIsMod(v: nat, k: nat)
    ensures BitAnd(v, Pow2(k) - 1) == v % Pow2(k)
  {
    if k == 0 {
      assert Pow2(k) == 1;
    } else if v == 0 {
      assert BitAnd(v, Pow2(k) - 1) == 0;
    } else {
      var p := Pow2(k - 1);
      var m := Pow2(k) - 1;
      assert Pow2(k) == 2 * p;
      assert m == 2 * (p - 1) + 1;
      assert m / 2 == p - 1 && m % 2 == 1;
      assert BitAnd(v, m) == 2 * BitAnd(v / 2, p - 1) + v % 2;
      MaskIsMod(v / 2, k - 1);
      ModDouble(v, p);
      assert BitAnd(v, m) == v % (2 * p);
    }
  }

  /** Euclidean remainder of a small negative number. */
  lemma ModNegative(v: int, d: nat)
    requires d > 0 && -(d as int) <= v < 0
    ensures v % d == v + d
  {
    var q, r := v / d, v % d;
    assert v == d * q + r && 0 <= r < d;
    assert q == -1;
  }

  lemma {:induction false} Pow2Add(a: nat, b: nat)
    ensures Pow2(a + b) == Pow2(a) * Pow2(b)
    decreases b
  {
    if b > 0 {
      Pow2Add(a, b - 1);
      assert Pow2(a + b) == 2 * Pow2(a + b - 1);
    }
  }

  /** The powers of two of the 8-bit width. */
  lemma Pow2Byte()
    ensures Pow2(7) == 128 && Pow2(8) == 256
  {
    assert Pow2(4) == 16;
    Pow2Add(4, 3);
    Pow2Add(4, 4);
  }

  /** The powers of two of the 32-bit width. */
  lemma Pow2Word()
    ensures Pow2(31) == 2147483648 && Pow2(32) == 4294967296
  {
    Pow2Byte();
    Pow2Add(8, 8);
    Pow2Add(16, 15);
    Pow2Add(16, 16);
  }

  /** The powers of two of the C integer widths. */
  lemma Pow2Values()
    ensures Pow2(7) == 128 && Pow2(8) == 256
    ensures Pow2(15) == 32768 && Pow2(16) == 65536
    ensures Pow2(31) == 2147483648 && Pow2(32) == 4294967296
    ensures Pow2(63) == 9223372036854775808 && Pow2(64) == 18446744073709551616
  {
    assert Pow2(4) == 16;
    assert Pow2(8) == 256;
    Pow2Add(8, 7);
    Pow2Add(8, 8);
    Pow2Add(16, 15);
    Pow2Add(16, 16);
    Pow2Add(32, 31);
    Pow2Add(32, 32);
  }

  lemma {:induction false} Pow2Monotone(a: nat, b: nat)
    requires a <= b
    ensures Pow2(a) <= Pow2(b)
    decreases b - a
  {
    if a < b {
      Pow2Monotone(a, b - 1);
    }
  }

  /** A zero-byte tag can only hold 0. */
  lemma TruncateZeroBytes(value: nat)
    requires value < Pow2(128)
    ensures TruncateToSize(value, 0) == 0
  {
  }

  /** A value that already fits the tag is returned unchanged. */
  lemma TruncateKeepsSmall(value: nat, bytes: nat)
    requires bytes < 16 && value < Pow2(8 * bytes)
    ensures value < Pow2(128) && TruncateToSize(value, bytes) == value
  {
    Pow2Monotone(8 * bytes, 128);
    ModUnique(value, Pow2(8 * bytes), 0, value);
  }

  /** Truncating twice is truncating once. */
  lemma TruncateIdempotent(value: nat, bytes: nat)
    requires value < Pow2(128) && bytes < 16
    ensures TruncateToSize(TruncateToSize(value, bytes), bytes) == TruncateToSize(value, bytes)
  {
    var r := TruncateToSize(value, bytes);
    assert r < Pow2(8 * bytes);
    TruncateKeepsSmall(r, bytes);
    assert TruncateToSize(r, bytes) == r;
  }
}
