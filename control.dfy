/**
 * Control-flow resolution: the skip to the `endif` that closes a false conditional
 * (`next_valid_instruction`), the search for a label (`jump`), and the four
 * comparisons that decide a conditional (`if_eq`, `if_dif`, `if_gr`, `if_lw`).
 */
module Control {
  import opened Tokens
  import Stack

  // ---------------------------------------------------------------------------
  // next_valid_instruction

  /**
   * The scan of `next_valid_instruction` from index `i` with counter `valid`: an
   * `endif` seen while `valid` is 1 is the answer, any other `endif` lowers the
   * counter, an opener raises it; 0 when the scan reaches `elements`.
   */
  function NextValidFrom(code: seq<Token>, elements: nat, i: nat, valid: int): (r: int)
    requires elements <= |code|
    ensures r == 0 || (i <= r < elements && IsEndif(code[r].text))
    decreases elements - i
  {
    if i >= elements then 0
    else if IsEndif(code[i].text) && valid == 1 then i
    else NextValidFrom(code, elements, i + 1, valid + Delta(code[i].text))
  }

  /** `j` closes the block opened at `p`: it is an `endif` and the tokens strictly between are balanced. */
  predicate Closes(code: seq<Token>, p: nat, j: nat)
    requires p < j <= |code|
  {
    j < |code| && IsEndif(code[j].text) && Net(code, p + 1, j) == 0
  }

  lemma {:induction false} NextValidScan(code: seq<Token>, elements: nat, p: nat, i: nat, valid: int)
    requires p < i <= elements <= |code|
    requires valid == 1 + Net(code, p + 1, i)
    ensures var r := NextValidFrom(code, elements, i, valid);
      (r == 0 && forall j :: i <= j < elements ==> !Closes(code, p, j)) ||
      (i <= r < elements && Closes(code, p, r) && forall j :: i <= j < r ==> !Closes(code, p, j))
    decreases elements - i
  {
    if i < elements && !(IsEndif(code[i].text) && valid == 1) {
      assert Net(code, p + 1, i + 1) == Net(code, p + 1, i) + Delta(code[i].text);
      NextValidScan(code, elements, p, i + 1, valid + Delta(code[i].text));
    }
  }

  /**
   * Called at a conditional opener `p`, the scan answers the first `endif` after `p`
   * that closes it, skipping nested blocks whole, or 0 when the block is never closed.
   */
  lemma NextValidAtOpener(code: seq<Token>, elements: nat, p: nat)
    requires p < elements <= |code| && IsOpener(code[p].text)
    ensures var r := NextValidFrom(code, elements, p, 0);
      (r == 0 && forall j :: p < j < elements ==> !Closes(code, p, j)) ||
      (p < r < elements && Closes(code, p, r) && forall j :: p < j < r ==> !Closes(code, p, j))
  {
    assert NextValidFrom(code, elements, p, 0) == NextValidFrom(code, elements, p + 1, 1);
    NextValidScan(code, elements, p, p + 1, 1);
  }

  /** `next_valid_instruction(code, elements, pos)` as the C code runs it. */
  method NextValidInstruction(code: seq<Token>, elements: nat, pos: nat) returns (r: int)
    requires elements <= |code|
    ensures r == NextValidFrom(code, elements, pos, 0)
  {
    var valid := 0;
    var i := pos;
    while i < elements
      invariant NextValidFrom(code, elements, i, valid) == NextValidFrom(code, elements, pos, 0)
      decreases elements - i
    {
      if code[i].text == "endif" {
        if valid == 1 {
          return i;
        } else {
          valid := valid - 1;
        }
      }
      if IsOpener(code[i].text) {
        valid := valid + 1;
      }
      i := i + 1;
    }
    return 0;
  }

  // ---------------------------------------------------------------------------
  // jump

  /** A `label` token at `i` followed, within the program, by the token `name`. */
  predicate LabelAt(code: seq<Token>, elements: nat, name: string, i: nat)
    requires elements <= |code|
  {
    i + 1 < elements && code[i].text == "label" && code[i + 1].text == name
  }

  /** The scan of `jump` from index `i`: the index of the name token of the first matching label, or -1. */
  function LabelFrom(code: seq<Token>, elements: nat, name: string, i: nat): (r: int)
    requires elements <= |code|
    ensures r == -1 <==> forall k :: i <= k < elements ==> !LabelAt(code, elements, name, k)
    ensures r != -1 ==> (
      && i < r < elements
      && LabelAt(code, elements, name, r - 1)
      && forall k :: i <= k < r - 1 ==> !LabelAt(code, elements, name, k))
    decreases elements - i
  {
    if i >= elements then -1
    else if LabelAt(code, elements, name, i) then i + 1
    else LabelFrom(code, elements, name, i + 1)
  }

  function LabelTarget(code: seq<Token>, elements: nat, name: string): int
    requires elements <= |code|
  {
    LabelFrom(code, elements, name, 0)
  }

  /** `jump(code, elements, label)` as the C code runs it. */
  method Jump(code: seq<Token>, elements: nat, name: string) returns (r: int)
    requires elements <= |code|
    ensures r == LabelTarget(code, elements, name)
  {
    var i := 0;
    while i < elements
      invariant i <= elements
      invariant LabelFrom(code, elements, name, i) == LabelTarget(code, elements, name)
    {
      if i + 1 < elements && code[i].text == "label" {
        if code[i + 1].text == name {
          return i + 1;
        }
      }
      i := i + 1;
    }
    return -1;
  }

  // ---------------------------------------------------------------------------
  // Comparisons

  /** The six conditional openers. */
  datatype Cond = Eq | Dif | Gr | Lw | IsTrue | IsFalse

  /** The four comparisons between the element under the top (`a`) and the top (`b`). */
  predicate Holds(c: Cond, a: real, b: real)
    requires c != IsTrue && c != IsFalse
  {
    match c
    case Eq => a == b
    case Dif => a != b
    case Gr => a > b
    case Lw => a < b
  }

  /**
   * `if_eq`, `if_dif`, `if_gr`, `if_lw`: -1 on a stack of fewer than two elements,
   * otherwise 1 when the relation holds between the second element and the top.
   * Only reads the stack.
   */
  function Compare(c: Cond, s: seq<real>): (r: int)
    requires c != IsTrue && c != IsFalse
    ensures r == -1 <==> |s| < 2
    ensures |s| >= 2 ==> (r == 0 || r == 1) && (r == 1 <==> Holds(c, Stack.Second(s), Stack.Top(s)))
  {
    if |s| < 2 then -1
    else if Holds(c, s[|s| - 2], s[|s| - 1]) then 1
    else 0
  }

  /** `ifdif` answers the opposite of `ifeq`. */
  lemma DifIsNotEq(s: seq<real>)
    requires |s| >= 2
    ensures Compare(Dif, s) == 1 - Compare(Eq, s)
  {
  }

  /** Exactly one of `ifeq`, `ifgr` and `iflw` holds on a stack of two or more. */
  lemma Trichotomy(s: seq<real>)
    requires |s| >= 2
    ensures Compare(Eq, s) + Compare(Gr, s) + Compare(Lw, s) == 1
  {
  }

  /**
   * `ifgr` holds when the second element exceeds the top, although the list of operations
   * at the head of fsnail.c (line 45) describes it the other way round.
   */
  lemma GreaterTestsSecondOverTop()
    ensures Compare(Gr, [5.0, 3.0]) == 1
    ensures Compare(Gr, [3.0, 5.0]) == 0
  {
  }
}
