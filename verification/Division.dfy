/** The unsigned division helper of the ARM preloader (loader/preloader.c), which returns the
    quotient in the low and the remainder in the high half of a 64-bit value, as section 4.3.1
    of the Run-time ABI for the Arm Architecture (IHI 0043D) lays down for __aeabi_uidivmod.
 */
module Division {

  import opened Options

  const TWO_31 := 0x8000_0000
  const TWO_32 := 0x1_0000_0000

  // ---------------------------------------------------------------- words

  function ShiftLeft(x: nat): nat {
    x * 2 % TWO_32
  }

  function ShiftRight(x: nat): nat {
    x / 2
  }

  predicate TopBit(x: nat) {
    x / TWO_31 % 2 == 1
  }

  /** Bitwise or. */
  function Or(a: nat, b: nat): nat {
    if a == 0 then b
    else if b == 0 then a
    else 2 * Or(a / 2, b / 2) + (if a % 2 == 1 || b % 2 == 1 then 1 else 0)
  }

  /** x moved up by k bits. */
  function Scale(x: nat, k: nat): nat {
    if k == 0 then x else 2 * Scale(x, k - 1)
  }

  lemma {:induction false} ScaleDouble(x: nat, k: nat)
    ensures Scale(2 * x, k) == Scale(x, k + 1)
  {
    if k > 0 { ScaleDouble(x, k - 1); }
  }

  lemma {:induction false} ScaleSum(x: nat, y: nat, k: nat)
    ensures Scale(x + y, k) == Scale(x, k) + Scale(y, k)
  {
    if k > 0 { ScaleSum(x, y, k - 1); }
  }

  lemma {:induction false} ScaleGrows(x: nat, y: nat, k: nat)
    requires x <= y
    ensures Scale(x, k) <= Scale(y, k) && (x > 0 ==> Scale(x, k) > 0)
  {
    if k > 0 { ScaleGrows(x, y, k - 1); }
  }

  /** Where the low k bits are clear and b has no others, or is addition. */
  lemma {:induction false} OrAdds(a: nat, k: nat, b: nat)
    requires b < Scale(1, k)
    ensures Or(Scale(a, k), b) == Scale(a, k) + b
  {
    if k > 0 && Scale(a, k) > 0 && b > 0 { OrAdds(a, k - 1, b / 2); }
  }

  lemma {:induction false} ScaleTimes(x: nat, k: nat)
    ensures Scale(x, k) == x * Scale(1, k)
  {
    if k > 0 { ScaleTimes(x, k - 1); }
  }

  lemma ScaleBy32(x: nat)
    ensures Scale(x, 32) == x * TWO_32
  {
    ScaleTimes(x, 32);
    assert Scale(1, 8) == 0x100;
    assert Scale(1, 16) == 0x1_0000;
    assert Scale(1, 24) == 0x100_0000;
  }

  lemma HighOr(hi: nat, lo: nat)
    requires lo < TWO_32
    ensures Or(hi * TWO_32, lo) == hi * TWO_32 + lo
  {
    ScaleBy32(hi);
    ScaleBy32(1);
    OrAdds(hi, 32, lo);
  }

  // ---------------------------------------------------------------- long division

  /** What both loops keep: den is the divisor moved up by k bits, and the quotient so far, q
      above bit k, has already been taken out of the dividend. */
  ghost predicate Keeps(num0: nat, den0: nat, num: nat, den: nat, bit: nat, quota: nat, k: nat, q: nat, taken: nat) {
    && bit == Scale(1, k) && den == Scale(den0, k) && quota == Scale(q, k + 1)
    && num0 == Scale(taken, k + 1) + num && num < 2 * den && den < TWO_32
  }

  function Left(num: nat, den: nat): nat {
    if den <= num then num - den else num
  }

  function Gained(num: nat, den: nat, quota: nat, bit: nat): nat {
    if den <= num then quota + bit else quota
  }

  /** The digit found at bit k > 0 joins those above it. */
  lemma {:induction false} NextDigit(x: nat, y: nat, k: nat, more: bool)
    requires k > 0
    ensures Scale(x, k + 1) + (if more then Scale(y, k) else 0) == Scale(if more then 2 * x + y else 2 * x, k)
  {
    ScaleDouble(x, k);
    ScaleSum(2 * x, y, k);
  }

  lemma Halved(x: nat, half: nat)
    requires x == 2 * half
    ensures x / 2 == half && x % 2 == 0
  {
  }

  /** One round at bit k > 0 leaves things as they should be for bit k - 1. */
  lemma {:induction false} Round(num0: nat, den0: nat, num: nat, den: nat, bit: nat, quota: nat,
                                 k: nat, q: nat, taken: nat)
    requires Keeps(num0, den0, num, den, bit, quota, k, q, taken) && k > 0
    ensures bit % 2 == 0 && den % 2 == 0 && bit > 1
    ensures var more := den <= num;
            Keeps(num0, den0, Left(num, den), den / 2, bit / 2, Gained(num, den, quota, bit), k - 1,
                  if more then 2 * q + 1 else 2 * q, if more then 2 * taken + den0 else 2 * taken)
  {
    NextDigit(q, 1, k, den <= num);
    NextDigit(taken, den0, k, den <= num);
    ScaleGrows(1, 1, k - 1);
    Halved(den, Scale(den0, k - 1));
    Halved(bit, Scale(1, k - 1));
  }

  lemma OrIsSum(quota: nat, bit: nat, k: nat, q: nat)
    requires bit == Scale(1, k) && quota == Scale(q, k + 1)
    ensures Or(quota, bit) == quota + bit
  {
    ScaleGrows(1, 1, k);
    OrAdds(q, k + 1, bit);
  }

  lemma Quotient(num0: nat, den0: nat, q: nat, r: nat)
    requires den0 > 0 && num0 == q * den0 + r && r < den0
    ensures q == num0 / den0 && r == num0 % den0
  {
    var d := num0 / den0 - q;
    assert d * den0 == r - num0 % den0;
  }

  lemma NextTaken(q: nat, den0: nat)
    ensures (2 * q) * den0 == 2 * (q * den0) && (2 * q + 1) * den0 == 2 * (q * den0) + den0
  {
  }

  lemma LastRound(num0: nat, den0: nat, num: nat, den: nat, bit: nat, quota: nat, q: nat, taken: nat)
    requires Keeps(num0, den0, num, den, bit, quota, 0, q, taken) && den0 > 0 && taken == q * den0
    ensures bit == 1 && Gained(num, den, quota, bit) == num0 / den0 && Left(num, den) == num0 % den0
  {
    NextTaken(q, den0);
    assert Scale(taken, 1) == 2 * Scale(taken, 0) == 2 * taken;
    assert quota == Scale(q, 1) == 2 * Scale(q, 0) == 2 * q;
    Quotient(num0, den0, Gained(num, den, quota, bit), Left(num, den));
  }

  lemma {:induction false} ScaleZero(k: nat)
    ensures Scale(0, k) == 0
  {
    if k > 0 { ScaleZero(k - 1); }
  }

  lemma QuotientFits(num0: nat, den0: nat)
    requires num0 < TWO_32 && den0 > 0
    ensures num0 / den0 < TWO_32
  {
    assert num0 / den0 * den0 <= num0;
  }

  lemma Halves(hi: nat, lo: nat)
    requires lo < TWO_32
    ensures (hi * TWO_32 + lo) % TWO_32 == lo && (hi * TWO_32 + lo) / TWO_32 == hi
  {
  }

  /** Move the divisor up until it is no longer below the dividend, or has its top bit set. */
  method Align(num: nat, den0: nat) returns (den: nat, bit: nat, ghost k: nat)
    requires num < TWO_32 && 0 < den0 < TWO_32
    ensures Keeps(num, den0, num, den, bit, 0, k, 0, 0)
  {
    den, bit, k := den0, 1, 0;
    while den < num && !TopBit(den)
      invariant bit == Scale(1, k) && den == Scale(den0, k) && 0 < den < TWO_32
      decreases TWO_32 - den
    {
      ScaleGrows(1, den0, k);
      assert den * 2 < TWO_32 && bit * 2 < TWO_32;
      den, bit := ShiftLeft(den), ShiftLeft(bit);
      k := k + 1;
    }
    ScaleZero(k + 1);
  }

  /** Take the divisor out bit by bit on the way down. */
  method Divide(num0: nat, den0: nat, top: nat, topBit: nat, ghost shift: nat) returns (num: nat, quota: nat)
    requires den0 > 0 && Keeps(num0, den0, num0, top, topBit, 0, shift, 0, 0)
    ensures quota == num0 / den0 && num == num0 % den0
  {
    var den: nat, bit: nat := top, topBit;
    ghost var k: nat, q: nat, taken: nat := shift, 0, 0;
    num, quota := num0, 0;
    while true
      invariant Keeps(num0, den0, num, den, bit, quota, k, q, taken) && taken == q * den0
      decreases k
    {
      OrIsSum(quota, bit, k, q);
      if k == 0 {
        LastRound(num0, den0, num, den, bit, quota, q, taken);
      } else {
        Round(num0, den0, num, den, bit, quota, k, q, taken);
        NextTaken(q, den0);
      }
      q, taken := if den <= num then 2 * q + 1 else 2 * q, if den <= num then 2 * taken + den0 else 2 * taken;
      if den <= num {
        quota := Or(quota, bit);
        num := num - den;
      }
      bit, den := ShiftRight(bit), ShiftRight(den);
      if bit == 0 { break; }
      k := k - 1;
    }
  }

  /** __aeabi_uidivmod; nothing for a zero divisor, where the program exits. */
  method UnsignedDivMod(num0: nat, den0: nat) returns (r: Option<nat>)
    requires num0 < TWO_32 && den0 < TWO_32
    ensures r.None? <==> den0 == 0
    ensures r.Some? ==> r.value % TWO_32 == num0 / den0 && r.value / TWO_32 == num0 % den0
  {
    if den0 == 0 { return None; }
    var den, bit, k := Align(num0, den0);
    var num, quota := Divide(num0, den0, den, bit, k);
    QuotientFits(num0, den0);
    HighOr(num, quota);
    r := Some(Or(num * TWO_32, quota));
    Halves(num, quota);
  }
}
