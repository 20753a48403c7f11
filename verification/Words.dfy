/**
  Machine words of the Rust program. `*`, `+` and `-` on these types wrap in a
  release build, so each wrapping operation is written out with its modulus;
  the checked and saturating forms are the ones the program calls by name.
 */
module Words {
  import opened Wrappers

  const TWO_8: int := 0x100
  const TWO_32: int := 0x1_0000_0000
  const TWO_64: int := 0x1_0000_0000_0000_0000
  const TWO_96: int := 0x1_0000_0000_0000_0000_0000_0000
  const TWO_112: int := 0x1_0000_0000_0000_0000_0000_0000_0000
  const TWO_120: int := 0x100_0000_0000_0000_0000_0000_0000_0000
  const TWO_128: int := 0x1_0000_0000_0000_0000_0000_0000_0000_0000
  const TWO_160: int := 0x1_0000_0000_0000_0000_0000_0000_0000_0000_0000_0000
  const TWO_255: int := 0x8000_0000_0000_0000_0000_0000_0000_0000_0000_0000_0000_0000_0000_0000_0000_0000
  const TWO_256: int := 0x1_0000_0000_0000_0000_0000_0000_0000_0000_0000_0000_0000_0000_0000_0000_0000_0000

  type u8 = x: int | 0 <= x < TWO_8
  type u32 = x: int | 0 <= x < TWO_32
  type u64 = x: int | 0 <= x < TWO_64
  type u128 = x: int | 0 <= x < TWO_128
  type u256 = x: int | 0 <= x < TWO_256
  /** alloy's `I256`: two's complement on 256 bits. */
  type i256 = x: int | -TWO_255 <= x < TWO_255

  function AddWrap(x: u256, y: u256): u256 { (x + y) % TWO_256 }

  function MulWrap(x: u256, y: u256): u256 { Rem(Product(x, y), TWO_256) }

  function CheckedMul(x: u256, y: u256): Option<u256> {
    if Product(x, y) < TWO_256 then Some(Product(x, y)) else None
  }

  function SaturatingSub(x: u256, y: u256): u256 { if x <= y then 0 else x - y }

  function SaturatingAdd(x: u256, y: u256): u256 {
    if x + y < TWO_256 then x + y else TWO_256 - 1
  }

  /** `I256::from_raw`, and the result of every wrapping `I256` operation. */
  function SignedWrap(x: int): i256 {
    var r := x % TWO_256;
    if r < TWO_255 then r else r - TWO_256
  }

  // ------------------------------------------------------------------------
  // Non-linear facts used throughout
  // ------------------------------------------------------------------------

  lemma MulMono(x: nat, X: nat, y: nat, Y: nat)
    requires x <= X && y <= Y
    ensures 0 <= x * y <= X * Y
  {
  }

  lemma MulStrict(x: nat, y: nat, z: nat)
    requires x < y && z > 0
    ensures x * z < y * z
  {
  }

  /** `*` before any wrapping, as repeated addition; `ProductIs` ties it to the built-in operator. */
  function Product(x: nat, y: nat): nat
    decreases x
  {
    if x == 0 then 0 else y + Product(x - 1, y)
  }

  lemma {:induction false} ProductIs(x: nat, y: nat)
    ensures Product(x, y) == x * y
  {
    if x > 0 {
      ProductIs(x - 1, y);
    }
  }

  /**
    `/` on U256: floor division by repeated subtraction. `QuotBounds` says what it
    is, and `QuotIsFloor` ties it to the built-in operator.
   */
  function Quot(n: nat, d: nat): (q: nat)
    requires d > 0
    ensures q <= n
    decreases n
  {
    if n < d then 0 else Quot(n - d, d) + 1
  }

  lemma {:induction false} QuotBounds(n: nat, d: nat)
    requires d > 0
    ensures Quot(n, d) * d <= n < Quot(n, d) * d + d
    decreases n
  {
    if n >= d {
      QuotBounds(n - d, d);
      var q := Quot(n - d, d);
      assert (q + 1) * d == q * d + d;
    }
  }

  /** `%` in the same way: what division leaves. */
  function Rem(n: nat, d: nat): (r: nat)
    requires d > 0
    ensures r < d && r <= n
    ensures n < d ==> r == n
    ensures n >= d ==> r <= n - d
  {
    QuotBounds(n, d);
    AtLeastOne(n, d, Quot(n, d));
    n - Quot(n, d) * d
  }

  lemma AtLeastOne(n: nat, d: nat, q: nat)
    requires q * d <= n < q * d + d
    ensures 0 <= n - q * d <= n && (n < d ==> q * d == 0) && (n >= d ==> q * d >= d)
  {
    if q == 0 {
      assert q * d == 0;
    } else {
      MulMono(1, q, d, d);
    }
  }

  /** The contract of `Quot` leaves no other value. */
  lemma QuotGreatest(q: nat, n: nat, d: nat)
    requires d > 0 && q * d <= n
    ensures q <= Quot(n, d)
  {
    QuotBounds(n, d);
    var k := Quot(n, d);
    assert (k + 1) * d == k * d + d;
    if k < q {
      MulMono(k + 1, q, d, d);
    }
  }

  lemma QuotIs(q: nat, n: nat, d: nat)
    requires d > 0 && q * d <= n < q * d + d
    ensures Quot(n, d) == q
  {
    QuotGreatest(q, n, d);
    QuotBounds(n, d);
    var k := Quot(n, d);
    assert (q + 1) * d == q * d + d;
    if q < k {
      MulMono(q + 1, k, d, d);
    }
  }

  lemma QuotIsFloor(n: nat, d: nat)
    requires d > 0
    ensures Quot(n, d) == n / d
  {
    var q, m := n / d, n % d;
    assert n == q * d + m && 0 <= m < d;
    FloorBounds(d, q, m);
    QuotIs(q, n, d);
  }

  lemma RemIs(n: nat, d: nat, q: nat, m: nat)
    requires d > 0 && n == q * d + m && m < d
    ensures Rem(n, d) == m
  {
    QuotIs(q, n, d);
  }

  lemma RemIsMod(n: nat, d: nat)
    requires d > 0
    ensures Rem(n, d) == n % d
  {
    hide Quot, Rem;
    var q, m := n / d, n % d;
    assert n == q * d + m && 0 <= m < d;
    FloorBounds(d, q, m);
    RemIs(n, d, q, m);
  }

  lemma FloorBounds(d: nat, q: int, m: int)
    requires 0 <= m < d
    ensures q < 0 ==> q * d + m < 0
  {
    if q < 0 {
      MulMono(1, -q, d, d);
      assert (-q) * d == -(q * d);
    }
  }

  lemma MulWrapExact(x: u256, y: u256)
    requires 0 <= x * y < TWO_256
    ensures MulWrap(x, y) == x * y
  {
    ProductIs(x, y);
  }

  /** If k copies of n stay below m, so do k of any part: cancel a positive factor. */
  lemma MulCancel(x: nat, y: nat, z: nat)
    requires z > 0 && x * z <= y * z
    ensures x <= y
  {
  }
}
