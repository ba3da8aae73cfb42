/**
 * Tokens of a program and the block structure they form. A conditional block opens
 * with one of the six `if` instructions and closes with `endif`.
 */
module Tokens {

  /** The text of a token and the source line the tokenizer attached to it. */
  datatype Token = Token(text: string, line: int)

  predicate IsOpener(t: string) {
    t == "ifeq" || t == "ifdif" || t == "ifgr" || t == "iflw" || t == "iftrue" || t == "iffalse"
  }

  predicate IsEndif(t: string) {
    t == "endif"
  }

  /** How a token changes the nesting depth. */
  function Delta(t: string): int {
    if IsEndif(t) then -1 else if IsOpener(t) then 1 else 0
  }

  /** Openers minus `endif`s among `code[a..b]`. */
  function Net(code: seq<Token>, a: nat, b: nat): int
    requires a <= b <= |code|
    decreases b - a
  {
    if a == b then 0 else Net(code, a, b - 1) + Delta(code[b - 1].text)
  }

  lemma {:induction false} NetSplit(code: seq<Token>, a: nat, b: nat, c: nat)
    requires a <= b <= c <= |code|
    ensures Net(code, a, c) == Net(code, a, b) + Net(code, b, c)
    decreases c - b
  {
    if b < c {
      NetSplit(code, a, b, c - 1);
    }
  }

  /** Peeling the first token off a range. */
  lemma NetFront(code: seq<Token>, a: nat, b: nat)
    requires a < b <= |code|
    ensures Net(code, a, b) == Delta(code[a].text) + Net(code, a + 1, b)
  {
    NetSplit(code, a, a + 1, b);
  }
}
