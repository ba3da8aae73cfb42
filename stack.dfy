/**
 * The value stack of the interpreter. The C program keeps it as a singly linked list
 * whose last node is the top; here its contents are a sequence whose last element is
 * the top. Each C operation answers 1 (done) or 0 (refused, stack untouched); the
 * functions below answer `Some(new contents)` or `None`, and the class `ValueStack`
 * performs the same operations in place.
 */
module Stack {
  import opened Wrappers
  import opened CNum

  /** The transcendental functions of the C math library (powf, logf, log10f, log2f, sqrtf, sinf, cosf, tanf). */
  datatype MathLib = MathLib(
    pow: (real, real) -> real,
    ln: real -> real,
    log10: real -> real,
    log2: real -> real,
    sqrt: real -> real,
    sin: real -> real,
    cos: real -> real,
    tan: real -> real)

  /** Operations that replace the two top values with `second OP top`. */
  datatype BinOp = Sum | Sub | Mult | Div | Rem | And | Or | Xor | Pow

  /** Operations that rewrite the top value only. */
  datatype UnOp = ToInt | Inc | Dec | Not | LShift | RShift | Abs | Ln | Log | LogTwo | Ceil | Sqrt | Sin | Cos | Tan

  function Top(s: seq<real>): real
    requires |s| > 0
  {
    s[|s| - 1]
  }

  /** The element under the top: the left operand of every binary operation. */
  function Second(s: seq<real>): real
    requires |s| > 1
  {
    s[|s| - 2]
  }

  /** Everything below the two top elements. */
  function Below2(s: seq<real>): seq<real>
    requires |s| > 1
  {
    s[..|s| - 2]
  }

  function Pushed(s: seq<real>, v: real): seq<real> {
    s + [v]
  }

  function Popped(s: seq<real>): Option<seq<real>> {
    if |s| == 0 then None else Some(s[..|s| - 1])
  }

  function Duplicated(s: seq<real>): Option<seq<real>> {
    if |s| == 0 then None else Some(s + [Top(s)])
  }

  /** The temporary of the C swap is an `int`, so the value that moves to the top is truncated. */
  function Swapped(s: seq<real>): Option<seq<real>> {
    if |s| < 2 then None else Some(Below2(s) + [Top(s), Trunc(Second(s)) as real])
  }

  /** When `op` may be applied to `second` and `top`: `my_div` and `rem` refuse a zero top. */
  predicate Accepts(op: BinOp, top: real) {
    (op == Div || op == Rem) ==> top != 0.0
  }

  /**
   * `rem` converts both operands to `int` before `%`; a top in (-1, 1) other than 0
   * passes the zero test of the C code and then divides by zero.
   */
  predicate BinaryDefined(op: BinOp, s: seq<real>) {
    op == Rem && |s| >= 2 && Top(s) != 0.0 ==> Trunc(Top(s)) != 0
  }

  function Combine(op: BinOp, a: real, b: real, m: MathLib): real
    requires Accepts(op, b)
    requires op == Rem ==> Trunc(b) != 0
  {
    match op
    case Sum => a + b
    case Sub => a - b
    case Mult => a * b
    case Div => a / b
    case Rem => CRem(Trunc(a), Trunc(b)) as real
    case And => BitAnd(Trunc(a), Trunc(b)) as real
    case Or => BitOr(Trunc(a), Trunc(b)) as real
    case Xor => BitXor(Trunc(a), Trunc(b)) as real
    case Pow => m.pow(a, b)
  }

  /** sum, sub, mult, my_div, rem, and, or, xor and my_pow. */
  function Binary(op: BinOp, s: seq<real>, m: MathLib): (r: Option<seq<real>>)
    requires BinaryDefined(op, s)
    ensures r.None? <==> |s| < 2 || !Accepts(op, Top(s))
    ensures r.Some? ==> |r.value| == |s| - 1 && r.value[..|s| - 2] == Below2(s)
  {
    if |s| < 2 || !Accepts(op, Top(s)) then None
    else Some(Below2(s) + [Combine(op, Second(s), Top(s), m)])
  }

  /** `not`, `lshift` and `rshift` refuse a stack of fewer than two elements although they read only the top. */
  function MinDepth(op: UnOp): nat {
    if op == Not || op == LShift || op == RShift then 2 else 1
  }

  function ApplyUnary(op: UnOp, x: real, m: MathLib): real {
    match op
    case ToInt => Trunc(x) as real
    case Inc => x + 1.0
    case Dec => x - 1.0
    case Not => BitNot(Trunc(x)) as real
    case LShift => ShiftLeft(Trunc(x)) as real
    case RShift => ShiftRight(Trunc(x)) as real
    case Abs => if x < 0.0 then -x else x
    case Ln => m.ln(x)
    case Log => m.log10(x)
    case LogTwo => m.log2(x)
    case Ceil => -((-x).Floor) as real
    case Sqrt => m.sqrt(x)
    case Sin => m.sin(x)
    case Cos => m.cos(x)
    case Tan => m.tan(x)
  }

  /** toint, inc, dec, not, lshift, rshift, my_abs and the one-argument math functions. */
  function Unary(op: UnOp, s: seq<real>, m: MathLib): (r: Option<seq<real>>)
    ensures r.None? <==> |s| < MinDepth(op)
    ensures r.Some? ==> |r.value| == |s| && r.value[..|s| - 1] == s[..|s| - 1]
    ensures r.Some? ==> r.value[|s| - 1] == ApplyUnary(op, Top(s), m)
  {
    if |s| < MinDepth(op) then None else Some(s[..|s| - 1] + [ApplyUnary(op, Top(s), m)])
  }

  // ---------------------------------------------------------------------------
  // Properties of the operations

  /** `push v` then `pop` gives back the stack it started from. */
  lemma PushThenPop(s: seq<real>, v: real)
    ensures Popped(Pushed(s, v)) == Some(s)
  {
    assert (s + [v])[..|s|] == s;
  }

  /** `dup` fails exactly on the empty stack, and `dup` then `pop` restores the stack. */
  lemma DupThenPop(s: seq<real>)
    ensures Duplicated(s).None? <==> s == []
    ensures Duplicated(s).Some? ==> Popped(Duplicated(s).value) == Some(s)
  {
    if s != [] {
      assert (s + [Top(s)])[..|s|] == s;
    }
  }

  /** `push a; push b; OP` leaves `a OP b` on top of what was there before: the left operand is the older value. */
  lemma BinaryAfterPushes(op: BinOp, s: seq<real>, a: real, b: real, m: MathLib)
    requires Accepts(op, b)
    requires op == Rem ==> Trunc(b) != 0
    ensures BinaryDefined(op, Pushed(Pushed(s, a), b))
    ensures Binary(op, Pushed(Pushed(s, a), b), m) == Some(s + [Combine(op, a, b, m)])
  {
    var t := Pushed(Pushed(s, a), b);
    assert Below2(t) == s;
  }

  /** A zero divisor makes `div` and `rem` refuse and leave the stack as it was. */
  lemma DivideByZeroRefused(op: BinOp, s: seq<real>, m: MathLib)
    requires op == Div || op == Rem
    requires |s| >= 2 && Top(s) == 0.0
    ensures Binary(op, s, m) == None
  {
  }

  /** `rem` answers a remainder smaller in size than the truncated divisor, with the sign of the dividend. */
  lemma RemainderBounds(s: seq<real>, m: MathLib)
    requires |s| >= 2 && Trunc(Top(s)) != 0
    ensures BinaryDefined(Rem, s)
    ensures var r := Binary(Rem, s, m).value[|s| - 2];
      var d := Trunc(Top(s));
      r == r.Floor as real && (-d < r.Floor < d || d < r.Floor < -d)
  {
    assert Top(s) != 0.0;
  }

  /**
   * `swap` applied twice gives back the two top values truncated: it is an
   * involution only on integral values.
   */
  lemma SwapTwice(s: seq<real>)
    requires |s| >= 2
    ensures Swapped(s).Some? && Swapped(Swapped(s).value).Some?
    ensures Swapped(Swapped(s).value).value == Below2(s) + [Trunc(Second(s)) as real, Trunc(Top(s)) as real]
  {
    var t := Swapped(s).value;
    assert Below2(t) == Below2(s);
    assert Second(t) == Top(s);
    assert Top(t) == Trunc(Second(s)) as real;
    assert Trunc(Trunc(Second(s)) as real) == Trunc(Second(s));
  }

  /** Converting an integral value to `int` is exact. */
  lemma TruncOfInt(n: int)
    ensures Trunc(n as real) == n
  {
  }

  /**
   * `toint` truncates the top toward zero, `lshift` doubles it and `rshift` halves it
   * rounding down, as long as the truncated value and its double fit in an `int`.
   */
  lemma ShiftsOnTop(s: seq<real>, m: MathLib)
    requires |s| >= 2
    requires InInt32(2 * Trunc(Top(s)))
    ensures Unary(ToInt, s, m) == Some(s[..|s| - 1] + [Trunc(Top(s)) as real])
    ensures Unary(LShift, s, m) == Some(s[..|s| - 1] + [(2 * Trunc(Top(s))) as real])
    ensures Unary(RShift, s, m) == Some(s[..|s| - 1] + [(Trunc(Top(s)) / 2) as real])
  {
    var n := Trunc(Top(s));
    ShiftLeftDoubles(n);
    ShiftRightHalves(n);
  }

  /** `not` applied twice gives the truncated top, reduced to 32 bits. */
  lemma NotTwice(s: seq<real>, m: MathLib)
    requires |s| >= 2
    ensures Unary(Not, s, m).Some? && Unary(Not, Unary(Not, s, m).value, m).Some?
    ensures Unary(Not, Unary(Not, s, m).value, m).value
         == s[..|s| - 1] + [FromBits(ToBits(Trunc(Top(s)))) as real]
  {
    var n := Trunc(Top(s));
    var t := Unary(Not, s, m).value;
    assert Top(t) == BitNot(n) as real;
    TruncOfInt(BitNot(n));
    assert ApplyUnary(Not, Top(t), m) == BitNot(BitNot(n)) as real;
    BitNotTwice(n);
    assert t[..|t| - 1] == s[..|s| - 1];
  }

  /** `inc` then `dec` restores the stack. */
  lemma IncThenDec(s: seq<real>, m: MathLib)
    requires |s| >= 1
    ensures Unary(Inc, s, m).Some? && Unary(Dec, Unary(Inc, s, m).value, m) == Some(s)
  {
    var t := Unary(Inc, s, m).value;
    assert Top(t) == Top(s) + 1.0;
    assert ApplyUnary(Dec, Top(t), m) == Top(s);
    assert t[..|t| - 1] + [Top(s)] == s;
  }

  /** `abs` leaves a non-negative top whose size is the old top's. */
  lemma AbsIsMagnitude(s: seq<real>, m: MathLib)
    requires |s| >= 1
    ensures var t := Top(Unary(Abs, s, m).value);
      t >= 0.0 && (t == Top(s) || t == -Top(s))
  {
  }

  /** `ceil` gives the least integer not below the top. */
  lemma CeilIsLeastIntegerAbove(x: real, m: MathLib)
    ensures var c := ApplyUnary(Ceil, x, m);
      c == c.Floor as real && x <= c < x + 1.0
  {
  }

  // ---------------------------------------------------------------------------
  // The stack as the C code keeps it: a mutable container updated in place.

  class ValueStack {
    var items: seq<real>

    constructor ()
      ensures items == []
    {
      items := [];
    }

    /** `push`: never fails. */
    method Push(v: real)
      modifies this
      ensures items == old(items) + [v]
    {
      items := items + [v];
    }

    /** `pop`: removes the top, or answers false on an empty stack. */
    method Pop() returns (ok: bool)
      modifies this
      ensures ok == (old(items) != [])
      ensures items == if ok then Popped(old(items)).value else old(items)
    {
      if items == [] {
        return false;
      }
      items := items[..|items| - 1];
      ok := true;
    }

    method Dup() returns (ok: bool)
      modifies this
      ensures ok == Duplicated(old(items)).Some?
      ensures items == if ok then Duplicated(old(items)).value else old(items)
    {
      if items == [] {
        return false;
      }
      items := items + [items[|items| - 1]];
      ok := true;
    }

    /** `clear`: pops until the stack is empty. */
    method Clear()
      modifies this
      ensures items == []
    {
      while items != []
        decreases |items|
      {
        var _ := Pop();
      }
    }

    method Swap() returns (ok: bool)
      modifies this
      ensures ok == Swapped(old(items)).Some?
      ensures items == if ok then Swapped(old(items)).value else old(items)
    {
      if |items| < 2 {
        return false;
      }
      var n := |items|;
      var tmp := Trunc(items[n - 2]);
      items := items[n - 2 := items[n - 1]][n - 1 := tmp as real];
      ok := true;
    }

    /** The nine binary operations. */
    method Apply2(op: BinOp, m: MathLib) returns (ok: bool)
      requires BinaryDefined(op, items)
      modifies this
      ensures ok == Binary(op, old(items), m).Some?
      ensures items == if ok then Binary(op, old(items), m).value else old(items)
    {
      if |items| < 2 {
        return false;
      }
      var n := |items|;
      if (op == Div || op == Rem) && items[n - 1] == 0.0 {
        return false;
      }
      var v := Combine(op, items[n - 2], items[n - 1], m);
      items := items[..n - 2] + [v];
      ok := true;
    }

    /** The operations that rewrite the top value. */
    method Apply1(op: UnOp, m: MathLib) returns (ok: bool)
      modifies this
      ensures ok == Unary(op, old(items), m).Some?
      ensures items == if ok then Unary(op, old(items), m).value else old(items)
    {
      if |items| < MinDepth(op) {
        return false;
      }
      var n := |items|;
      items := items[n - 1 := ApplyUnary(op, items[n - 1], m)];
      ok := true;
    }
  }
}
