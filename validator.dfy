/**
 * `initial_debug`: the check of conditional blocks made before a program runs. A
 * forward pass over the tokens keeps a stack of the lines of open conditionals; a
 * backward pass keeps a stack of the lines of `endif`s not yet matched. The program
 * is rejected when either counter drops below zero; the lines left on either stack
 * are reported as missing their counterpart.
 *
 * The backward pass visits the indices `elements` down to 1: it reads the slot after
 * the last token (where `halt` usually is) and never reads the first token.
 */
module Validator {
  import opened Wrappers
  import opened Tokens

  /** A counter of `initial_debug` and the lines on the stack it indexes. */
  datatype Tally = Tally(top: int, lines: seq<int>)

  predicate Wf(t: Tally) {
    t.top >= -1 && (t.top >= 0 ==> |t.lines| == t.top) && (t.top < 0 ==> t.lines == [])
  }

  /**
   * One token's effect on a tally: a token that `pushes` records its line (at counter
   * -1 that writes before the start of the array, which is undefined: `None`); a token
   * that `pops` lowers the counter unless it is already -1.
   */
  function Tick(t: Tally, pushes: bool, pops: bool, line: int): (r: Option<Tally>)
    requires Wf(t)
    ensures r.None? <==> pushes && t.top < 0
    ensures r.Some? ==> Wf(r.value)
  {
    if pushes then
      if t.top < 0 then None else Some(Tally(t.top + 1, t.lines + [line]))
    else if pops && t.top >= 0 then
      Some(Tally(t.top - 1, if t.top == 0 then [] else t.lines[..|t.lines| - 1]))
    else Some(t)
  }

  /** The forward pass over `code[..n]`: openers push, `endif`s pop. */
  function Forward(code: seq<Token>, n: nat): (r: Option<Tally>)
    requires n <= |code|
    ensures r.Some? ==> Wf(r.value) && r.value.top <= n
  {
    if n == 0 then Some(Tally(0, []))
    else match Forward(code, n - 1)
      case None => None
      case Some(t) => Tick(t, IsOpener(code[n - 1].text), IsEndif(code[n - 1].text), code[n - 1].line)
  }

  /** The backward pass over the indices `elements` down to `j`: `endif`s push, openers pop. */
  function Backward(code: seq<Token>, elements: nat, j: nat): (r: Option<Tally>)
    requires 1 <= j <= elements + 1 <= |code|
    ensures r.Some? ==> Wf(r.value) && r.value.top <= elements + 1 - j
    decreases elements + 1 - j
  {
    if j == elements + 1 then Some(Tally(0, []))
    else match Backward(code, elements, j + 1)
      case None => None
      case Some(t) => Tick(t, IsEndif(code[j].text), IsOpener(code[j].text), code[j].line)
  }

  /** Openers minus `endif`s among the slots `i` to `elements`, those the backward pass visits from `i` on. */
  function Tail(code: seq<Token>, elements: nat, i: nat): int
    requires i <= elements + 1 <= |code|
  {
    Net(code, i, elements + 1)
  }

  /** Neither pass writes before the start of its array. */
  predicate Defined(code: seq<Token>, elements: nat) {
    elements + 1 <= |code| && Forward(code, elements).Some? && Backward(code, elements, 1).Some?
  }

  function Reverse(s: seq<int>): seq<int> {
    seq(|s|, i requires 0 <= i < |s| => s[|s| - 1 - i])
  }

  /** The verdict, and the lines of the openers and of the `endif`s reported as missing their counterpart, in the order printed. */
  datatype Report = Report(ok: bool, openers: seq<int>, endifs: seq<int>)

  function Validate(code: seq<Token>, elements: nat): Report
    requires Defined(code, elements)
  {
    var f := Forward(code, elements).value;
    var b := Backward(code, elements, 1).value;
    Report(f.top >= 0 && b.top >= 0, f.lines, Reverse(b.lines))
  }

  // ---------------------------------------------------------------------------
  // What the verdict means

  /** The forward counter is the nesting depth until some prefix closes more blocks than it opens; from then on it stays at -1. */
  lemma {:induction false} ForwardTracksDepth(code: seq<Token>, n: nat)
    requires n <= |code| && Forward(code, n).Some?
    ensures var t := Forward(code, n).value;
      (t.top >= 0 <==> forall k :: 0 <= k <= n ==> Net(code, 0, k) >= 0)
      && (t.top >= 0 ==> t.top == Net(code, 0, n))
  {
    if n > 0 {
      ForwardTracksDepth(code, n - 1);
      var t := Forward(code, n - 1).value;
      var t' := Forward(code, n).value;
      assert Net(code, 0, n) == Net(code, 0, n - 1) + Delta(code[n - 1].text);
      if t.top < 0 {
        var k :| 0 <= k <= n - 1 && Net(code, 0, k) < 0;
        assert t'.top < 0;
      } else if t'.top >= 0 {
        assert t'.top == Net(code, 0, n);
      } else {
        assert Net(code, 0, n) < 0;
      }
    }
  }

  /** The backward counter is the number of unmatched `endif`s in the suffix until some suffix closes fewer blocks than it opens. */
  lemma {:induction false} BackwardTracksDepth(code: seq<Token>, elements: nat, j: nat)
    requires 1 <= j <= elements + 1 <= |code| && Backward(code, elements, j).Some?
    ensures var t := Backward(code, elements, j).value;
      (t.top >= 0 <==> forall i :: j <= i <= elements + 1 ==> Tail(code, elements, i) <= 0)
      && (t.top >= 0 ==> t.top == -Net(code, j, elements + 1))
    decreases elements + 1 - j
  {
    if j <= elements {
      BackwardTracksDepth(code, elements, j + 1);
      NetFront(code, j, elements + 1);
      var t := Backward(code, elements, j + 1).value;
      var t' := Backward(code, elements, j).value;
      assert Tail(code, elements, j) == Delta(code[j].text) + Tail(code, elements, j + 1);
      if t.top < 0 {
        var i :| j + 1 <= i <= elements + 1 && Tail(code, elements, i) > 0;
        assert t'.top < 0;
      } else if t'.top >= 0 {
        assert t'.top == -Tail(code, elements, j);
      } else {
        assert Tail(code, elements, j) > 0;
      }
    }
  }

  /**
   * The program is accepted exactly when no prefix of the tokens closes more blocks
   * than it opens and no suffix of the slots 1..elements opens more than it closes;
   * then as many openers are reported as stay open and as many `endif`s as that suffix
   * leaves unmatched.
   */
  lemma Verdict(code: seq<Token>, elements: nat)
    requires Defined(code, elements)
    ensures var r := Validate(code, elements);
      (r.ok <==> (
        && (forall k :: 0 <= k <= elements ==> Net(code, 0, k) >= 0)
        && (forall i :: 1 <= i <= elements + 1 ==> Tail(code, elements, i) <= 0)))
      && (r.ok ==> |r.openers| == Net(code, 0, elements) && |r.endifs| == -Net(code, 1, elements + 1))
  {
    ForwardTracksDepth(code, elements);
    BackwardTracksDepth(code, elements, 1);
  }

  lemma {:induction false} NestedForwardDefined(code: seq<Token>, n: nat)
    requires n <= |code|
    requires forall k :: 0 <= k <= n ==> Net(code, 0, k) >= 0
    ensures Forward(code, n).Some? && Forward(code, n).value.top == Net(code, 0, n)
  {
    if n > 0 {
      NestedForwardDefined(code, n - 1);
    }
  }

  lemma {:induction false} NestedBackwardDefined(code: seq<Token>, elements: nat, j: nat)
    requires 1 <= j <= elements + 1 <= |code|
    requires forall i :: j <= i <= elements + 1 ==> Tail(code, elements, i) <= 0
    ensures Backward(code, elements, j).Some? && Backward(code, elements, j).value.top == -Net(code, j, elements + 1)
    decreases elements + 1 - j
  {
    if j <= elements {
      NestedBackwardDefined(code, elements, j + 1);
      NetFront(code, j, elements + 1);
      assert Tail(code, elements, j) <= 0 && Tail(code, elements, j + 1) <= 0;
    }
  }

  /**
   * A well-nested program is accepted without any message, provided its first token
   * is not an opener and the slot after its last token holds neither an opener nor
   * an `endif`.
   */
  lemma WellNestedAccepted(code: seq<Token>, elements: nat)
    requires elements + 1 <= |code|
    requires forall k :: 0 <= k <= elements ==> Net(code, 0, k) >= 0
    requires Net(code, 0, elements) == 0
    requires !IsOpener(code[0].text) && Delta(code[elements].text) == 0
    ensures Defined(code, elements) && Validate(code, elements) == Report(true, [], [])
  {
    NestedForwardDefined(code, elements);
    forall i | 1 <= i <= elements + 1
      ensures Tail(code, elements, i) <= 0
    {
      if i <= elements {
        NetSplit(code, 0, i, elements);
        NetSplit(code, i, elements, elements + 1);
      }
    }
    NestedBackwardDefined(code, elements, 1);
    if elements > 0 {
      NetSplit(code, 0, 1, elements);
      NetSplit(code, 1, elements, elements + 1);
      assert Net(code, 0, 1) == Delta(code[0].text);
    }
  }

  /** An `endif` before any opener makes the program rejected. */
  lemma EarlyEndifRejected(code: seq<Token>, elements: nat, k: nat)
    requires Defined(code, elements)
    requires k <= elements && Net(code, 0, k) < 0
    ensures !Validate(code, elements).ok
  {
    Verdict(code, elements);
  }

  /** The first token is never visited by the backward pass: a program made of `ifeq` alone is reported but accepted. */
  lemma UnmatchedFirstOpenerAccepted()
    ensures var code := [Token("ifeq", 1), Token("halt", 0)];
      Defined(code, 1) && Validate(code, 1) == Report(true, [1], [])
  {
  }

  /** The same blind spot makes the `endif` closing a leading opener look unmatched, though the program is accepted. */
  lemma LeadingBlockEndifReported()
    ensures var code := [Token("ifeq", 1), Token("endif", 2), Token("halt", 0)];
      Defined(code, 2) && Validate(code, 2) == Report(true, [], [2])
  {
    var code := [Token("ifeq", 1), Token("endif", 2), Token("halt", 0)];
    assert IsOpener(code[0].text) && !IsEndif(code[0].text);
    assert IsEndif(code[1].text) && !IsOpener(code[1].text);
    assert !IsOpener(code[2].text) && !IsEndif(code[2].text);
    assert [] + [1] == [1];
    assert Forward(code, 1) == Some(Tally(1, [1]));
    assert [1][..0] == [];
    assert Forward(code, 2) == Some(Tally(0, []));
    assert Backward(code, 2, 2) == Some(Tally(0, []));
    assert [] + [2] == [2];
    assert Backward(code, 2, 1) == Some(Tally(1, [2]));
    assert Reverse([2]) == [2];
  }

  /** An opener left open after the first token is caught by the backward pass. */
  lemma UnmatchedLaterOpenerRejected()
    ensures var code := [Token("push", 1), Token("1", 1), Token("ifeq", 2), Token("halt", 0)];
      Defined(code, 3) && !Validate(code, 3).ok
  {
  }

  // ---------------------------------------------------------------------------
  // initial_debug as the C code runs it

  lemma {:induction false} ForwardPrefix(code: seq<Token>, m: nat, n: nat)
    requires m <= n <= |code| && Forward(code, n).Some?
    ensures Forward(code, m).Some?
  {
    if m < n {
      ForwardPrefix(code, m, n - 1);
    }
  }

  lemma {:induction false} BackwardSuffix(code: seq<Token>, elements: nat, j: nat, i: nat)
    requires 1 <= j <= i <= elements + 1 <= |code| && Backward(code, elements, j).Some?
    ensures Backward(code, elements, i).Some?
    decreases i - j
  {
    if j < i {
      BackwardSuffix(code, elements, j + 1, i);
    }
  }

  /** The first loop of `initial_debug`. */
  method ForwardPass(code: seq<Token>, elements: nat, ifStack: array<int>) returns (ifTop: int)
    requires elements <= |code| && ifStack.Length == elements && Forward(code, elements).Some?
    modifies ifStack
    ensures ifTop == Forward(code, elements).value.top
    ensures ifTop >= 0 ==> ifStack[..ifTop] == Forward(code, elements).value.lines
  {
    ifTop := 0;
    var i := 0;
    while i < elements
      invariant 0 <= i <= elements
      invariant Forward(code, i).Some? && ifTop == Forward(code, i).value.top
      invariant ifTop >= 0 ==> ifStack[..ifTop] == Forward(code, i).value.lines
    {
      ForwardPrefix(code, i + 1, elements);
      if IsOpener(code[i].text) {
        ifStack[ifTop] := code[i].line;
        ifTop := ifTop + 1;
      }
      if IsEndif(code[i].text) && ifTop >= 0 {
        ifTop := ifTop - 1;
      }
      i := i + 1;
    }
  }

  /** The second loop of `initial_debug`. */
  method BackwardPass(code: seq<Token>, elements: nat, endifStack: array<int>) returns (endifTop: int)
    requires elements + 1 <= |code| && endifStack.Length == elements && Backward(code, elements, 1).Some?
    modifies endifStack
    ensures endifTop == Backward(code, elements, 1).value.top
    ensures endifTop >= 0 ==> endifStack[..endifTop] == Backward(code, elements, 1).value.lines
  {
    endifTop := 0;
    var i := elements;
    while i > 0
      invariant 0 <= i <= elements
      invariant Backward(code, elements, i + 1).Some? && endifTop == Backward(code, elements, i + 1).value.top
      invariant endifTop >= 0 ==> endifStack[..endifTop] == Backward(code, elements, i + 1).value.lines
    {
      BackwardSuffix(code, elements, 1, i);
      if IsEndif(code[i].text) {
        endifStack[endifTop] := code[i].line;
        endifTop := endifTop + 1;
      }
      if IsOpener(code[i].text) && endifTop > -1 {
        endifTop := endifTop - 1;
      }
      i := i - 1;
    }
  }

  /** The first report loop of `initial_debug`: the open conditionals, bottom to top. */
  method OpenerLines(ifStack: array<int>, ifTop: int) returns (openers: seq<int>)
    requires ifTop <= ifStack.Length
    ensures openers == if ifTop <= 0 then [] else ifStack[..ifTop]
  {
    openers := [];
    var k := 0;
    while k < ifTop
      invariant 0 <= k && (k <= ifTop || k == 0)
      invariant openers == ifStack[..k]
    {
      openers := openers + [ifStack[k]];
      k := k + 1;
    }
  }

  /** The second report loop of `initial_debug`: the unmatched `endif`s, top to bottom. */
  method EndifLines(endifStack: array<int>, endifTop: int) returns (endifs: seq<int>)
    requires endifTop <= endifStack.Length
    ensures endifs == if endifTop <= 0 then [] else Reverse(endifStack[..endifTop])
  {
    endifs := [];
    if endifTop <= 0 {
      return;
    }
    ghost var e := endifStack[..endifTop];
    var k := endifTop - 1;
    while k >= 0
      invariant -1 <= k < endifTop
      invariant endifs == Reverse(e)[..endifTop - 1 - k]
    {
      endifs := endifs + [endifStack[k]];
      k := k - 1;
    }
    assert Reverse(e)[..endifTop] == Reverse(e);
  }

  /** `initial_debug(code, elements)`: both passes over arrays of `elements` slots, then the report. */
  method InitialDebug(code: seq<Token>, elements: nat) returns (r: Report)
    requires Defined(code, elements)
    ensures r == Validate(code, elements)
  {
    var ifStack := new int[elements];
    var endifStack := new int[elements];
    var ifTop := ForwardPass(code, elements, ifStack);
    var endifTop := BackwardPass(code, elements, endifStack);
    var openers := OpenerLines(ifStack, ifTop);
    var endifs := EndifLines(endifStack, endifTop);
    r := Report(!(ifTop < 0 || endifTop < 0), openers, endifs);
  }
}
