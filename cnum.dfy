/**
 * The parts of C's numeric and character semantics that the interpreter relies on:
 * the float-to-int conversion (truncation toward zero), the `%` operator on `int`,
 * the two's-complement view of a 32-bit `int` used by the bitwise instructions, and
 * the `<ctype.h>` classes of the "C" locale.
 */
module CNum {

  const Two32: int := 0x1_0000_0000
  const Two31: int := 0x8000_0000

  /** The value C gives to `(int) x`: `x` truncated toward zero (out-of-range casts are not modelled). */
  function Trunc(x: real): (r: int)
    ensures 0.0 <= x ==> r as real <= x < r as real + 1.0
    ensures x < 0.0 ==> r as real - 1.0 < x <= r as real
  {
    if x >= 0.0 then x.Floor else -((-x).Floor)
  }

  /** C's `/` on `int`: the quotient truncated toward zero. */
  function CDiv(a: int, b: int): int
    requires b != 0
  {
    var q := (if a < 0 then -a else a) / (if b < 0 then -b else b);
    if (a < 0) == (b < 0) then q else -q
  }

  /** C's `%` on `int`: the remainder that goes with a quotient truncated toward zero. */
  function CRem(a: int, b: int): (r: int)
    requires b != 0
    ensures a == b * CDiv(a, b) + r
    ensures -b < r < b || b < r < -b
    ensures r != 0 ==> (r < 0 <==> a < 0)
  {
    a - b * CDiv(a, b)
  }

  predicate InInt32(n: int) {
    -Two31 <= n < Two31
  }

  /** The 32 bits of an `int` holding `n`, reduced modulo 2^32. */
  function ToBits(n: int): bv32 {
    (n % Two32) as bv32
  }

  /** The signed value of a 32-bit pattern read as a two's-complement `int`. */
  function FromBits(b: bv32): (r: int)
    ensures InInt32(r)
  {
    if b as int < Two31 then b as int else b as int - Two32
  }

  lemma ModSmall(x: int)
    requires 0 <= x < Two32
    ensures x % Two32 == x
  {
  }

  lemma ModShifted(x: int)
    requires Two31 <= x < Two32
    ensures (x - Two32) % Two32 == x
  {
  }

  lemma RemOfBits(b: bv32)
    ensures FromBits(b) % Two32 == b as int
  {
    var x := b as int;
    if x < Two31 { ModSmall(x); } else { ModShifted(x); }
  }

  lemma BitsOfValue(y: int, b: bv32)
    requires y == b as int
    ensures y as bv32 == b
  {
  }

  /** Reading 32 bits as a signed `int` and storing that `int` back gives the same bits. */
  lemma ToBitsFromBits(b: bv32)
    ensures ToBits(FromBits(b)) == b
  {
    RemOfBits(b);
    BitsOfValue(FromBits(b) % Two32, b);
  }

  // The bitwise operators of C on 32-bit `int`s.

  function BitAnd(a: int, b: int): int {
    FromBits(ToBits(a) & ToBits(b))
  }

  function BitOr(a: int, b: int): int {
    FromBits(ToBits(a) | ToBits(b))
  }

  function BitXor(a: int, b: int): int {
    FromBits(ToBits(a) ^ ToBits(b))
  }

  function BitNot(a: int): int {
    FromBits(!ToBits(a))
  }

  /** The value an `int` holds for `n` after 32-bit wrap-around: the one in range congruent to `n` modulo 2^32. */
  function Wrap(n: int): (r: int)
    ensures InInt32(r)
    ensures (n - r) % Two32 == 0
  {
    var m := n % Two32;
    if m < Two31 then m else m - Two32
  }

  /** Two values in the `int` range that are congruent modulo 2^32 are equal. */
  lemma CongruentInRange(x: int, y: int)
    requires InInt32(x) && InInt32(y)
    requires (x - y) % Two32 == 0
    ensures x == y
  {
  }

  /**
   * `first << 1` as the usual compilers implement it on a 32-bit `int`: the bits move up
   * by one and the top bit is lost, which is doubling with wrap-around.
   */
  function ShiftLeft(a: int): int {
    Wrap(2 * a)
  }

  /**
   * `first >> 1` on a signed `int` as the usual compilers implement it: an arithmetic
   * shift that copies the sign bit, which is halving rounded toward minus infinity
   * (Dafny's `/` by a positive divisor rounds down).
   */
  function ShiftRight(a: int): int {
    Wrap(a) / 2
  }

  /** `lshift` doubles every value whose double still fits in an `int`. */
  lemma ShiftLeftDoubles(n: int)
    requires InInt32(2 * n)
    ensures ShiftLeft(n) == 2 * n
  {
    CongruentInRange(ShiftLeft(n), 2 * n);
  }

  /** Doubling past the `int` range wraps: `lshift` of 2^30 gives the most negative `int`. */
  lemma ShiftLeftWraps()
    ensures ShiftLeft(Two31 / 2) == -Two31
  {
    CongruentInRange(ShiftLeft(Two31 / 2), -Two31);
  }

  /** `rshift` halves every `int`, rounding toward minus infinity: `rshift` of -3 is -2. */
  lemma ShiftRightHalves(n: int)
    requires InInt32(n)
    ensures ShiftRight(n) == n / 2
    ensures 2 * ShiftRight(n) <= n <= 2 * ShiftRight(n) + 1
  {
    CongruentInRange(Wrap(n), n);
  }

  /** `~` is an involution once the value has been reduced to 32 bits. */
  lemma BitNotTwice(a: int)
    ensures BitNot(BitNot(a)) == FromBits(ToBits(a))
  {
    BitsOfNot(a);
    ComplementTwice(ToBits(a));
  }

  lemma BitsOfNot(a: int)
    ensures ToBits(BitNot(a)) == !ToBits(a)
  {
    ToBitsFromBits(!ToBits(a));
  }

  lemma ComplementTwice(b: bv32)
    ensures !(!b) == b
  {
  }

  /** `x ^ x` is zero. */
  lemma BitXorSelf(a: int)
    ensures BitXor(a, a) == 0
  {
    var b := ToBits(a);
    assert b ^ b == 0;
  }

  // Character classes of the "C" locale (ASCII only).

  predicate IsSpace(c: char) {
    c == ' ' || ('\t' <= c <= '\r')
  }

  predicate IsDigit(c: char) {
    '0' <= c <= '9'
  }

  predicate IsAlpha(c: char) {
    ('a' <= c <= 'z') || ('A' <= c <= 'Z')
  }

  predicate IsPunct(c: char) {
    ('!' <= c <= '/') || (':' <= c <= '@') || ('[' <= c <= '`') || ('{' <= c <= '~')
  }
}
