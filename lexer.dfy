/**
 * Reading a program: the tokenizer `sfscanf`, the counting pass that sizes the token
 * array, and the copy pass that drops comments (`-->` ... `<--`) and appends `halt`.
 *
 * The file is a string and the file position an index into it. `sfscanf` also updates
 * the caller's line counter and a one-character flag, the "carriage", in
 * place; here they go in and come back as values.
 */
module Lexer {
  import opened CNum
  import opened Wrappers
  import opened Tokens

  /** The buffer length the program passes to `sfscanf`. */
  const D := 1024

  const EOF := -1

  /** What one call of `sfscanf` does: refuse a non-positive length, hit the end of the file, or read a token. */
  datatype Scan =
    | Refused
    | AtEof(pos: nat, line: int, carriage: char)
    | Read(text: string, pos: nat, line: int, carriage: char)

  datatype Skipped = Skipped(pos: nat, line: int)

  /** The first loop of `sfscanf`: passes white space, counting newlines. */
  function SkipSpace(src: string, p: nat, line: int): (r: Skipped)
    requires p <= |src|
    ensures p <= r.pos <= |src|
    ensures forall k :: p <= k < r.pos ==> IsSpace(src[k])
    ensures r.pos == |src| || !IsSpace(src[r.pos])
    ensures r.line >= line
    decreases |src| - p
  {
    if p == |src| || !IsSpace(src[p]) then Skipped(p, line)
    else SkipSpace(src, p + 1, if src[p] == '\n' then line + 1 else line)
  }

  datatype Rest = Rest(text: string, pos: nat, carriage: char)

  /**
   * The second loop of `sfscanf`, with `text` read so far. Each round first takes a
   * character from the file, then stops if the buffer is full (the character is lost).
   * In a quoted token every character is kept up to and including the closing '"'; in
   * any other token a white-space character ends it and is consumed, a newline setting
   * the carriage, and every kept character clears the carriage.
   */
  function ReadRest(src: string, q: nat, l: int, text: string, quoted: bool, car: char): (r: Rest)
    requires q <= |src| && 1 <= |text| <= l - 1
    ensures q <= r.pos <= |src|
    ensures |text| <= |r.text| <= l - 1
    ensures r.text[..|text|] == text
    ensures !quoted ==> forall k :: |text| <= k < |r.text| ==> !IsSpace(r.text[k])
    decreases |src| - q
  {
    if q == |src| then Rest(text, q, car)
    else if |text| >= l - 1 then Rest(text, q + 1, car)
    else
      var c := src[q];
      if quoted then
        if c == '"' then Rest(text + [c], q + 1, car)
        else ReadRest(src, q + 1, l, text + [c], true, car)
      else if IsSpace(c) then Rest(text, q + 1, if c == '\n' then '\n' else car)
      else ReadRest(src, q + 1, l, text + [c], false, '\0')
  }

  /**
   * `sfscanf(fp, string, l, &line, &carriage)` with the file at `p`: a carriage left at
   * newline by the previous token counts one line; the token is the first non-space
   * character and what `ReadRest` adds to it. It never holds more than `l - 1`
   * characters (the buffer keeps room for the NUL).
   */
  function ScanSpec(src: string, p: nat, l: int, line: int, car: char): (r: Scan)
    requires p <= |src| && l != 1
    ensures r.Refused? <==> l <= 0
    ensures r.AtEof? <==> l > 0 && forall k :: p <= k < |src| ==> IsSpace(src[k])
    ensures r.AtEof? ==> r.pos == |src| && r.carriage == car && r.line >= line
    ensures r.Read? ==> p < r.pos <= |src| && 1 <= |r.text| <= l - 1 && r.line >= line
    ensures r.Read? && r.text[0] != '"' ==> forall k :: 0 <= k < |r.text| ==> !IsSpace(r.text[k])
  {
    if l <= 0 then Refused
    else
      var s := SkipSpace(src, p, if car == '\n' then line + 1 else line);
      if s.pos == |src| then AtEof(s.pos, s.line, car)
      else
        var rest := ReadRest(src, s.pos + 1, l, [src[s.pos]], src[s.pos] == '"', car);
        Read(rest.text, rest.pos, s.line, rest.carriage)
  }

  // ---------------------------------------------------------------------------
  // What a token is

  lemma {:induction false} SkipIgnoresLine(src: string, p: nat, line1: int, line2: int)
    requires p <= |src|
    ensures SkipSpace(src, p, line1).pos == SkipSpace(src, p, line2).pos
    decreases |src| - p
  {
    if p < |src| && IsSpace(src[p]) {
      SkipIgnoresLine(src, p + 1,
        if src[p] == '\n' then line1 + 1 else line1,
        if src[p] == '\n' then line2 + 1 else line2);
    }
  }

  lemma {:induction false} RestIgnoresCarriage(src: string, q: nat, l: int, text: string, quoted: bool, c1: char, c2: char)
    requires q <= |src| && 1 <= |text| <= l - 1
    ensures ReadRest(src, q, l, text, quoted, c1).text == ReadRest(src, q, l, text, quoted, c2).text
    ensures ReadRest(src, q, l, text, quoted, c1).pos == ReadRest(src, q, l, text, quoted, c2).pos
    decreases |src| - q
  {
    if q < |src| && |text| < l - 1 {
      var c := src[q];
      if quoted && c != '"' {
        RestIgnoresCarriage(src, q + 1, l, text + [c], true, c1, c2);
      } else if !quoted && !IsSpace(c) {
        RestIgnoresCarriage(src, q + 1, l, text + [c], false, '\0', '\0');
      }
    }
  }

  /** Which token is read, and where the file is left, depend neither on the line counter nor on the carriage. */
  lemma ScanIgnoresCounters(src: string, p: nat, l: int, line1: int, car1: char, line2: int, car2: char)
    requires p <= |src| && l != 1
    ensures var a, b := ScanSpec(src, p, l, line1, car1), ScanSpec(src, p, l, line2, car2);
      a.Refused? == b.Refused? && a.AtEof? == b.AtEof? && a.Read? == b.Read?
      && (a.Read? ==> a.text == b.text && a.pos == b.pos)
  {
    if l > 0 {
      SkipIgnoresLine(src, p,
        if car1 == '\n' then line1 + 1 else line1,
        if car2 == '\n' then line2 + 1 else line2);
      var q := SkipSpace(src, p, if car1 == '\n' then line1 + 1 else line1).pos;
      if q < |src| {
        RestIgnoresCarriage(src, q + 1, l, [src[q]], src[q] == '"', car1, car2);
      }
    }
  }

  lemma {:induction false} RestOfQuoted(src: string, q: nat, l: int, text: string, x: string, car: char)
    requires q + |x| < |src| && src[q..q + |x| + 1] == x + "\""
    requires forall k :: 0 <= k < |x| ==> x[k] != '"'
    requires 1 <= |text| && |text| + |x| + 1 <= l - 1
    ensures ReadRest(src, q, l, text, true, car) == Rest(text + x + "\"", q + |x| + 1, car)
    decreases |x|
  {
    assert src[q] == (x + "\"")[0];
    if x != [] {
      assert src[q + 1..q + 1 + |x[1..]| + 1] == x[1..] + "\"" by {
        assert src[q + 1..q + |x| + 1] == (x + "\"")[1..];
      }
      RestOfQuoted(src, q + 1, l, text + [x[0]], x[1..], car);
      assert text + [x[0]] + x[1..] + "\"" == text + x + "\"";
    }
  }

  /** A quoted text that fits the buffer is read whole, both quotes included, whatever it contains. */
  lemma QuotedToken(src: string, p: nat, l: int, line: int, car: char, x: string)
    requires p + |x| + 2 <= |src| && src[p..p + |x| + 2] == "\"" + x + "\""
    requires forall k :: 0 <= k < |x| ==> x[k] != '"'
    requires |x| + 2 <= l - 1
    ensures var s := ScanSpec(src, p, l, line, car);
      s.Read? && s.text == "\"" + x + "\"" && s.pos == p + |x| + 2
  {
    assert src[p] == '"';
    assert src[p + 1..p + 1 + |x| + 1] == x + "\"" by {
      assert src[p + 1..p + |x| + 2] == ("\"" + x + "\"")[1..];
    }
    RestOfQuoted(src, p + 1, l, "\"", x, car);
    var c1 := if car == '\n' then line + 1 else line;
    assert SkipSpace(src, p, c1).pos == p;
  }

  lemma {:induction false} RestOfWord(src: string, q: nat, l: int, text: string, w: string, car: char)
    requires q + |w| <= |src| && src[q..q + |w|] == w
    requires forall k :: 0 <= k < |w| ==> !IsSpace(w[k])
    requires q + |w| == |src| || IsSpace(src[q + |w|])
    requires 1 <= |text| && |text| + |w| <= l - 1
    ensures ReadRest(src, q, l, text, false, car).text == text + w
    ensures ReadRest(src, q, l, text, false, car).pos == if q + |w| == |src| then |src| else q + |w| + 1
    decreases |w|
  {
    if w != [] {
      assert src[q] == w[0];
      assert src[q + 1..q + 1 + |w[1..]|] == w[1..];
      RestOfWord(src, q + 1, l, text + [w[0]], w[1..], '\0');
      assert text + [w[0]] + w[1..] == text + w;
    }
  }

  /** An unquoted word followed by white space (or the end of the file) that fits the buffer is read whole. */
  lemma WordToken(src: string, p: nat, l: int, line: int, car: char, w: string)
    requires p + |w| <= |src| && src[p..p + |w|] == w
    requires |w| >= 1 && w[0] != '"' && forall k :: 0 <= k < |w| ==> !IsSpace(w[k])
    requires p + |w| == |src| || IsSpace(src[p + |w|])
    requires |w| <= l - 1
    ensures var s := ScanSpec(src, p, l, line, car);
      s.Read? && s.text == w
  {
    assert src[p] == w[0];
    var c1 := if car == '\n' then line + 1 else line;
    assert SkipSpace(src, p, c1).pos == p;
    assert src[p + 1..p + 1 + |w[1..]|] == w[1..];
    RestOfWord(src, p + 1, l, [w[0]], w[1..], car);
    assert [w[0]] + w[1..] == w;
  }

  /**
   * A newline that ends an unquoted token stays in the carriage, and every later call
   * counts it again until an unquoted token gains a second character. In "x\ny z" the
   * one-character token y starts the second line and leaves the carriage set, so z is
   * given line 3.
   */
  lemma NewlineCountedTwice()
    ensures var a := ScanSpec("x\ny z", 0, D, 1, ' ');
      a == Read("x", 2, 1, '\n')
      && var b := ScanSpec("x\ny z", 2, D, 1, '\n');
      b == Read("y", 4, 2, '\n')
      && ScanSpec("x\ny z", 4, D, 2, '\n') == Read("z", 5, 3, '\n')
  {
    assert SkipSpace("x\ny z", 0, 1) == Skipped(0, 1);
    assert ReadRest("x\ny z", 1, D, "x", false, ' ') == Rest("x", 2, '\n');
    assert SkipSpace("x\ny z", 2, 2) == Skipped(2, 2);
    assert ReadRest("x\ny z", 3, D, "y", false, '\n') == Rest("y", 4, '\n');
    assert SkipSpace("x\ny z", 4, 3) == Skipped(4, 3);
    assert ReadRest("x\ny z", 5, D, "z", false, '\n') == Rest("z", 5, '\n');
  }

  /** The same line with a two-character token first: `yy` clears the carriage and `z` stays on line 2. */
  lemma NewlineClearedBySecondCharacter()
    ensures var a := ScanSpec("x\nyy z", 0, D, 1, ' ');
      a == Read("x", 2, 1, '\n')
      && var b := ScanSpec("x\nyy z", 2, D, 1, '\n');
      b == Read("yy", 5, 2, '\0')
      && ScanSpec("x\nyy z", 5, D, 2, '\0') == Read("z", 6, 2, '\0')
  {
    assert SkipSpace("x\nyy z", 0, 1) == Skipped(0, 1);
    assert ReadRest("x\nyy z", 1, D, "x", false, ' ') == Rest("x", 2, '\n');
    assert SkipSpace("x\nyy z", 2, 2) == Skipped(2, 2);
    assert ReadRest("x\nyy z", 3, D, "y", false, '\n') == Rest("yy", 5, '\0');
    assert SkipSpace("x\nyy z", 5, 2) == Skipped(5, 2);
    assert ReadRest("x\nyy z", 6, D, "z", false, '\0') == Rest("z", 6, '\0');
  }

  /** A token longer than the buffer is cut after `l - 1` characters, the next character is lost, and reading resumes after it. */
  lemma LongTokenIsCut()
    ensures ScanSpec("abcdef", 0, 4, 1, ' ') == Read("abc", 4, 1, '\0')
    ensures ScanSpec("abcdef", 4, 4, 1, '\0') == Read("ef", 6, 1, '\0')
  {
    assert ReadRest("abcdef", 1, 4, "a", false, ' ') == Rest("abc", 4, '\0');
    assert ReadRest("abcdef", 5, 4, "e", false, '\0') == Rest("ef", 6, '\0');
  }

  // ---------------------------------------------------------------------------
  // The token stream and the two passes of the loader

  /** The texts of the tokens `sfscanf` reads from position `p` until it answers EOF. */
  function Texts(src: string, l: int, p: nat): seq<string>
    requires p <= |src| && l >= 2
    decreases |src| - p
  {
    match ScanSpec(src, p, l, 0, ' ')
    case Read(t, q, _, _) => [t] + Texts(src, l, q)
    case _ => []
  }

  datatype Pass = Pass(count: nat, line: int, carriage: char)

  /** The counting pass: calls `sfscanf` until it answers EOF, counting the tokens. */
  function Count(src: string, l: int, p: nat, line: int, car: char): Pass
    requires p <= |src| && l >= 2
    decreases |src| - p
  {
    match ScanSpec(src, p, l, line, car)
    case Read(_, q, line', car') =>
      var rest := Count(src, l, q, line', car');
      Pass(rest.count + 1, rest.line, rest.carriage)
    case AtEof(_, line', car') => Pass(0, line', car')
    case Refused => Pass(0, line, car)
  }

  /** The counting pass counts every token of the stream, whatever the counters start at. */
  lemma {:induction false} CountIsStreamLength(src: string, l: int, p: nat, line: int, car: char)
    requires p <= |src| && l >= 2
    ensures Count(src, l, p, line, car).count == |Texts(src, l, p)|
    decreases |src| - p
  {
    ScanIgnoresCounters(src, p, l, line, car, 0, ' ');
    match ScanSpec(src, p, l, line, car)
    case Read(_, q, line', car') =>
      CountIsStreamLength(src, l, q, line', car');
    case _ =>
  }

  /**
   * The copy pass from position `p`, `acc` holding the tokens kept so far: after each
   * call of `sfscanf` the loop stops once `elements` tokens are kept; `-->` starts a
   * comment and `<--` ends one, both dropped; a token outside a comment is kept with
   * the line counter as it stands. At the end of the file outside a comment the loop
   * stops; inside one it never stops, because `sfscanf` keeps answering EOF, which is
   * non-zero: `None`.
   */
  function CopyFrom(src: string, l: int, p: nat, line: int, car: char, elements: nat, comment: bool, acc: seq<Token>): (r: Option<seq<Token>>)
    requires p <= |src| && l >= 2
    ensures |acc| <= elements && r.Some? ==> |acc| <= |r.value| <= elements && r.value[..|acc|] == acc
    decreases |src| - p
  {
    if |acc| >= elements then Some(acc)
    else match ScanSpec(src, p, l, line, car)
      case Read(t, q, line', car') =>
        if t == "<--" then CopyFrom(src, l, q, line', car', elements, false, acc)
        else if comment || t == "-->" then CopyFrom(src, l, q, line', car', elements, true, acc)
        else CopyFrom(src, l, q, line', car', elements, false, acc + [Token(t, line')])
      case _ => if comment then None else Some(acc)
  }

  /**
   * Comment removal on a list of token texts, the reference for the copy pass:
   * `None` when the list ends inside a comment.
   */
  function Uncommented(ts: seq<string>, comment: bool): (r: Option<seq<string>>)
    ensures r.Some? ==> |r.value| <= |ts|
    ensures r.Some? ==> forall k :: 0 <= k < |r.value| ==> r.value[k] != "-->" && r.value[k] != "<--"
  {
    if ts == [] then (if comment then None else Some([]))
    else if ts[0] == "<--" then Uncommented(ts[1..], false)
    else if comment || ts[0] == "-->" then Uncommented(ts[1..], true)
    else match Uncommented(ts[1..], false)
      case None => None
      case Some(rest) => Some([ts[0]] + rest)
  }

  function TextsOf(toks: seq<Token>): (ts: seq<string>)
    ensures |ts| == |toks| && forall k :: 0 <= k < |toks| ==> ts[k] == toks[k].text
  {
    seq(|toks|, k requires 0 <= k < |toks| => toks[k].text)
  }

  /**
   * The copy pass keeps exactly the tokens comment removal keeps, and hangs exactly
   * when the stream ends inside a comment, as long as `elements` leaves room for all
   * tokens still to come (one more inside a comment, for the `-->` already dropped).
   */
  lemma {:induction false} CopyIsUncommented(src: string, l: int, p: nat, line: int, car: char, elements: nat, comment: bool, acc: seq<Token>)
    requires p <= |src| && l >= 2
    requires |acc| + |Texts(src, l, p)| + (if comment then 1 else 0) <= elements
    ensures var r, u := CopyFrom(src, l, p, line, car, elements, comment, acc), Uncommented(Texts(src, l, p), comment);
      (r.None? <==> u.None?) && (r.Some? ==> TextsOf(r.value) == TextsOf(acc) + u.value)
    decreases |src| - p
  {
    ScanIgnoresCounters(src, p, l, line, car, 0, ' ');
    var ts := Texts(src, l, p);
    match ScanSpec(src, p, l, line, car)
    case Read(t, q, line', car') =>
      assert ts == [t] + Texts(src, l, q);
      assert ts[1..] == Texts(src, l, q);
      if t == "<--" {
        CopyIsUncommented(src, l, q, line', car', elements, false, acc);
      } else if comment || t == "-->" {
        CopyIsUncommented(src, l, q, line', car', elements, true, acc);
      } else {
        var acc' := acc + [Token(t, line')];
        CopyIsUncommented(src, l, q, line', car', elements, false, acc');
        assert TextsOf(acc') == TextsOf(acc) + [t];
      }
    case AtEof(_, _, _) =>
      assert TextsOf(acc) + [] == TextsOf(acc);
    case Refused =>
  }

  /** A stream with no comment marker is kept whole. */
  lemma {:induction false} NoMarkersKeepsAll(ts: seq<string>)
    requires forall k :: 0 <= k < |ts| ==> ts[k] != "-->" && ts[k] != "<--"
    ensures Uncommented(ts, false) == Some(ts)
  {
    if ts != [] {
      NoMarkersKeepsAll(ts[1..]);
      assert [ts[0]] + ts[1..] == ts;
    }
  }

  /** A `-->` with no `<--` after it leaves the stream inside a comment, whatever came before. */
  lemma {:induction false} UnclosedCommentNeverEnds(ts: seq<string>, k: nat, comment: bool)
    requires k < |ts| && ts[k] == "-->"
    requires forall j :: k < j < |ts| ==> ts[j] != "<--"
    ensures Uncommented(ts, comment) == None
  {
    if k == 0 {
      StaysInComment(ts[1..]);
    } else {
      UnclosedCommentNeverEnds(ts[1..], k - 1, ts[0] != "<--" && (comment || ts[0] == "-->"));
      if !(ts[0] == "<--") && !(comment || ts[0] == "-->") {
        UnclosedCommentNeverEnds(ts[1..], k - 1, false);
      }
      UnclosedCommentNeverEnds(ts[1..], k - 1, false);
      UnclosedCommentNeverEnds(ts[1..], k - 1, true);
    }
  }

  lemma {:induction false} StaysInComment(ts: seq<string>)
    requires forall j :: 0 <= j < |ts| ==> ts[j] != "<--"
    ensures Uncommented(ts, true) == None
  {
    if ts != [] {
      StaysInComment(ts[1..]);
    }
  }

  // ---------------------------------------------------------------------------
  // The loaded program

  /** Either the loader never finishes, or it yields the token count of the first pass and the token array. */
  datatype Loaded = Hangs | Ready(elements: nat, code: seq<Token>)

  /**
   * The token array after the copy pass: the kept tokens, then `halt` (only its text is
   * written; its line is what the slot held), then slots never written, whose contents
   * `memory` gives. The C array has `elements` slots; when no token was dropped `halt`
   * goes one past its end, and the validator reads that slot too, so the model gives
   * the array `elements + 1` slots.
   */
  function Materialize(tokens: seq<Token>, elements: nat, memory: nat -> Token): (code: seq<Token>)
    requires |tokens| <= elements
    ensures |code| == elements + 1
    ensures code[..|tokens|] == tokens
    ensures code[|tokens|].text == "halt"
  {
    seq(elements + 1, k requires 0 <= k <= elements => if k < |tokens| then tokens[k] else if k == |tokens| then Token("halt", memory(k).line) else memory(k))
  }

  /** The loader of `main`: count with the uninitialised carriage `c0`, rewind, copy with the line counter at 1. */
  function LoadSpec(src: string, c0: char, memory: nat -> Token): Loaded
  {
    var first := Count(src, D, 0, 0, c0);
    match CopyFrom(src, D, 0, 1, first.carriage, first.count, false, [])
    case None => Hangs
    case Some(tokens) => Ready(first.count, Materialize(tokens, first.count, memory))
  }

  /**
   * The loader hangs exactly when the token stream ends inside a comment; otherwise the
   * program holds one slot per token of the stream, and starts with the tokens left
   * after comment removal, then `halt`.
   */
  lemma LoadIsUncommented(src: string, c0: char, memory: nat -> Token)
    ensures var u := Uncommented(Texts(src, D, 0), false);
      (LoadSpec(src, c0, memory).Hangs? <==> u.None?)
      && (LoadSpec(src, c0, memory).Ready? ==>
        var r := LoadSpec(src, c0, memory);
        && |u.value| <= r.elements == |Texts(src, D, 0)|
        && |r.code| == r.elements + 1
        && TextsOf(r.code[..|u.value|]) == u.value
        && r.code[|u.value|].text == "halt")
  {
    var first := Count(src, D, 0, 0, c0);
    CountIsStreamLength(src, D, 0, 0, c0);
    CopyIsUncommented(src, D, 0, 1, first.carriage, first.count, false, []);
    assert TextsOf([]) == [];
  }

  /** A program without comment markers is loaded whole, and `halt` lands one past the last token. */
  lemma NoCommentsLoadsAll(src: string, c0: char, memory: nat -> Token)
    requires forall k :: 0 <= k < |Texts(src, D, 0)| ==> Texts(src, D, 0)[k] != "-->" && Texts(src, D, 0)[k] != "<--"
    ensures LoadSpec(src, c0, memory).Ready?
    ensures var r := LoadSpec(src, c0, memory);
      TextsOf(r.code[..r.elements]) == Texts(src, D, 0) && r.code[r.elements].text == "halt"
  {
    NoMarkersKeepsAll(Texts(src, D, 0));
    LoadIsUncommented(src, c0, memory);
  }

  // ---------------------------------------------------------------------------
  // The file and the loader as the C code runs them

  class Reader {
    const text: string
    var at: nat

    constructor (text: string)
      ensures this.text == text && at == 0
    {
      this.text := text;
      at := 0;
    }

    /** `fseek(fp, 0, SEEK_SET)`. */
    method Rewind()
      modifies this
      ensures at == 0
    {
      at := 0;
    }

    /** The first loop of `sfscanf`. */
    method SkipWhiteSpace(line: int) returns (line': int)
      requires at <= |text|
      modifies this
      ensures SkipSpace(text, old(at), line) == Skipped(at, line')
    {
      line' := line;
      while at < |text| && IsSpace(text[at])
        invariant old(at) <= at <= |text|
        invariant SkipSpace(text, at, line') == SkipSpace(text, old(at), line)
        decreases |text| - at
      {
        if text[at] == '\n' {
          line' := line' + 1;
        }
        at := at + 1;
      }
    }

    /** The second loop of `sfscanf`, after the first character of the token. */
    method ReadToken(first: string, l: int, quoted: bool, carriage: char) returns (buf: string, carriage': char)
      requires at <= |text| && 1 <= |first| <= l - 1
      modifies this
      ensures ReadRest(text, old(at), l, first, quoted, carriage) == Rest(buf, at, carriage')
    {
      buf, carriage' := first, carriage;
      while at < |text|
        invariant old(at) <= at <= |text|
        invariant 1 <= |buf| <= l - 1
        invariant ReadRest(text, at, l, buf, quoted, carriage') == ReadRest(text, old(at), l, first, quoted, carriage)
        decreases |text| - at
      {
        var c := text[at];
        at := at + 1;
        if !(|buf| < l - 1) {
          break;
        }
        if quoted {
          buf := buf + [c];
          if c == '"' {
            break;
          }
        } else if IsSpace(c) {
          if c == '\n' {
            carriage' := '\n';
          }
          break;
        } else {
          buf := buf + [c];
          carriage' := '\0';
        }
      }
    }

    /** `sfscanf(fp, buf, l, &line, &carriage)`: the new buffer, counters and file position are those of `ScanSpec`. */
    method Scan(buf: string, l: int, line: int, carriage: char) returns (r: int, buf': string, line': int, carriage': char)
      requires at <= |text| && l != 1
      modifies this
      ensures at <= |text|
      ensures match ScanSpec(text, old(at), l, line, carriage)
        case Refused => r == EOF && at == old(at) && buf' == buf && line' == line && carriage' == carriage
        case AtEof(q, ln, c) => r == EOF && at == q && buf' == "" && line' == ln && carriage' == c
        case Read(t, q, ln, c) => r == 1 && at == q && buf' == t && line' == ln && carriage' == c
    {
      if l <= 0 {
        return EOF, buf, line, carriage;
      }
      line' := line;
      carriage' := carriage;
      if carriage' == '\n' {
        line' := line' + 1;
      }
      line' := SkipWhiteSpace(line');
      if at == |text| {
        return EOF, "", line', carriage';
      }
      var c := text[at];
      at := at + 1;
      buf', carriage' := ReadToken([c], l, c == '"', carriage');
      r := 1;
    }
  }

  /** The counting loop of `main`: `sfscanf` until EOF, with the line counter at 0. */
  method CountTokens(fp: Reader, c0: char) returns (elements: nat, carriage: char)
    requires fp.at == 0
    modifies fp
    ensures elements == Count(fp.text, D, 0, 0, c0).count
    ensures carriage == Count(fp.text, D, 0, 0, c0).carriage
  {
    var line := "";
    var pos := 0;
    var ret := 0;
    elements, carriage := 0, c0;
    ghost var first := Count(fp.text, D, 0, 0, c0);
    while true
      invariant fp.at <= |fp.text|
      invariant elements + Count(fp.text, D, fp.at, pos, carriage).count == first.count
      invariant Count(fp.text, D, fp.at, pos, carriage).carriage == first.carriage
      decreases |fp.text| - fp.at
    {
      ghost var at0, pos0, car0 := fp.at, pos, carriage;
      ret, line, pos, carriage := fp.Scan(line, D, pos, carriage);
      if ret == EOF {
        break;
      }
      elements := elements + 1;
    }
  }

  /**
   * The copying loop of `main`, with the line counter at 1: `None` when it never ends,
   * otherwise the number of tokens written to the front of `code`; the other slots keep
   * what they held.
   */
  method CopyTokens(fp: Reader, code: array<Token>, elements: nat, carriage0: char) returns (kept: Option<nat>)
    requires fp.at == 0 && code.Length == elements + 1
    modifies fp, code
    ensures var copied := CopyFrom(fp.text, D, 0, 1, carriage0, elements, false, []);
      && (kept.None? <==> copied.None?)
      && (kept.Some? ==> kept.value <= elements && code[..kept.value] == copied.value)
    ensures kept.Some? ==> forall k :: kept.value <= k < code.Length ==> code[k] == old(code[k])
  {
    var line := "";
    var pos := 1;
    var carriage := carriage0;
    var ret := 0;
    var comment := false;
    var i := 0;
    ghost var copied := CopyFrom(fp.text, D, 0, 1, carriage0, elements, false, []);
    while true
      invariant fp.at <= |fp.text|
      invariant 0 <= i <= elements
      invariant CopyFrom(fp.text, D, fp.at, pos, carriage, elements, comment, code[..i]) == copied
      invariant forall k :: i <= k < code.Length ==> code[k] == old(code[k])
      decreases |fp.text| - fp.at
    {
      ghost var at0, pos0, car0, acc := fp.at, pos, carriage, code[..i];
      ret, line, pos, carriage := fp.Scan(line, D, pos, carriage);
      if !(ret != 0 && i < elements) {
        break;
      }
      if line == "-->" {
        comment := true;
      }
      if line == "<--" {
        comment := false;
        continue;
      }
      if !comment {
        if line == "" {
          break;
        }
        code[i] := Token(line, pos);
        i := i + 1;
        assert code[..i] == acc + [Token(line, pos)];
      } else if ret == EOF {
        // At the end of the file `sfscanf` keeps answering EOF, which is non-zero, and
        // nothing clears `comment` any more: the C loop never exits.
        return None;
      }
    }
    kept := Some(i);
  }

  /**
   * The loading part of `main` on the file contents `src`: `c0` is the carriage's
   * uninitialised first value and `memory` the prior contents of the token array.
   */
  method LoadProgram(src: string, c0: char, memory: nat -> Token) returns (r: Loaded)
    ensures r == LoadSpec(src, c0, memory)
  {
    var fp := new Reader(src);
    var elements, carriage := CountTokens(fp, c0);
    fp.Rewind();
    // One slot more than the C array, for the `halt` written past its end.
    var code := new Token[elements + 1](k => memory(k));
    var kept := CopyTokens(fp, code, elements, carriage);
    if kept.None? {
      return Hangs;
    }
    var i := kept.value;
    code[i] := Token("halt", code[i].line);
    r := Ready(elements, code[..]);
    assert code[..] == Materialize(code[..i], elements, memory);
  }
}
