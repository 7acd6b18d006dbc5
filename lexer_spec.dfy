/**
  The lexer of src/Tokenizer.cs as functions: one pass of the dispatch in
  `InputToTokensList` (`Dispatch`), the character runs its `CheckFor*` helpers
  collect, and the whole scan (`Scan`). The class in module Lexer is proved
  against these definitions; the lemmas below state what the lexer does.

  Outcomes other than a token list are explicit: `CompilerError` for the fatal
  diagnostic on a lone `!`, `OutOfRange` where the C# code reads past the end
  of its char array (its keyword lookahead is not bounds-checked), and
  `Diverges` for `=`, on which the operator scanner loops forever.
 */
module LexerSpec {
  import opened Tokens

  // ---------------------------------------------------------------------
  // Character classes (restricted to ASCII)
  // ---------------------------------------------------------------------

  const Apostrophe: char := 39 as char

  /** The second quote character: the source writes `(char)8.217`, which truncates to char code 8. */
  const Backspace: char := 8 as char

  predicate IsQuote(ch: char) { ch == Apostrophe || ch == Backspace }

  predicate IsDigit(ch: char) { '0' <= ch <= '9' }

  predicate IsLetter(ch: char) { 'a' <= ch <= 'z' || 'A' <= ch <= 'Z' }

  predicate IsLetterOrDigit(ch: char) { IsLetter(ch) || IsDigit(ch) }

  predicate IsIdentifierChar(ch: char) { IsLetterOrDigit(ch) || ch == '_' }

  /** The characters the dispatch hands to the operator scanner. */
  predicate IsOperatorStart(ch: char) { ch in "+-*/=><!&|" }

  const ExclamationMessage := "Exclamation mark (!) must have equals (=) immediately following it."

  // ---------------------------------------------------------------------
  // Outcomes
  // ---------------------------------------------------------------------

  datatype LexOutcome =
    | Completed(tokens: seq<Token>)
    | CompilerError(message: string, line: nat)
    | OutOfRange
    | Diverges

  /** An outcome together with the final values of `positionInInput` and `lineIndex`. */
  datatype LexRun = LexRun(outcome: LexOutcome, position: nat, line: nat)

  /** What one `CheckFor*` helper yields: a token, or an outcome that ends the scan. */
  datatype Lexed = Lexed(token: Token) | Raised(outcome: LexOutcome)

  /** What one pass of the dispatch loop does: emit at most one token and move on, or stop. */
  datatype Step = Advance(token: Option<Token>, next: nat, line: nat) | Halt(outcome: LexOutcome)

  // ---------------------------------------------------------------------
  // Lookahead
  // ---------------------------------------------------------------------

  /** The result of a chain `c[i] == w[0] && c[i+1] == w[1] && ...` evaluated left to right. */
  datatype Probe = Matches | Differs | ReadsPastEnd

  /**
    Compares `c` from index `i` with `w` one character at a time, stopping at
    the first difference, as the C# `&&` chains do; running off the end of
    `c` before a difference is found is an out-of-range read.
   */
  function ProbeWord(c: seq<char>, i: nat, w: string): (r: Probe)
    requires i <= |c|
    ensures r == Matches ==> i + |w| <= |c|
  {
    ProbeFrom(c, i, w, 0)
  }

  /** The rest of the chain of ProbeWord once its first `k` comparisons have succeeded. */
  function ProbeFrom(c: seq<char>, i: nat, w: string, k: nat): (r: Probe)
    requires k <= |w| && i + k <= |c|
    decreases |w| - k
    ensures r == Matches ==> i + |w| <= |c|
  {
    if k == |w| then Matches
    else if i + k == |c| then ReadsPastEnd
    else if c[i + k] != w[k] then Differs
    else ProbeFrom(c, i, w, k + 1)
  }

  /**
    A probe matches exactly when the word stands at `i`, and reads past the
    end exactly when the rest of the input is a proper prefix of the word.
   */
  lemma ProbeWordMeaning(c: seq<char>, i: nat, w: string)
    requires i <= |c|
    ensures ProbeWord(c, i, w) == Matches <==> i + |w| <= |c| && c[i..i + |w|] == w
    ensures ProbeWord(c, i, w) == ReadsPastEnd <==> |c| < i + |w| && c[i..] == w[..|c| - i]
  {
    ProbeFromMeaning(c, i, w, 0);
  }

  lemma {:induction false} ProbeFromMeaning(c: seq<char>, i: nat, w: string, k: nat)
    requires k <= |w| && i + k <= |c| && c[i..i + k] == w[..k]
    decreases |w| - k
    ensures ProbeFrom(c, i, w, k) == Matches <==> i + |w| <= |c| && c[i..i + |w|] == w
    ensures ProbeFrom(c, i, w, k) == ReadsPastEnd <==> |c| < i + |w| && c[i..] == w[..|c| - i]
  {
    if k == |w| {
      assert w[..k] == w;
    } else if i + k == |c| {
      assert c[i..] == c[i..i + k];
    } else if c[i + k] != w[k] {
      assert i + |w| <= |c| ==> c[i..i + |w|][k] == c[i + k];
      assert |c| < i + |w| ==> c[i..][k] == c[i + k] && w[..|c| - i][k] == w[k];
    } else {
      assert c[i..i + k + 1] == c[i..i + k] + [c[i + k]];
      assert w[..k + 1] == w[..k] + [w[k]];
      ProbeFromMeaning(c, i, w, k + 1);
    }
  }

  /** `true` / `false`: the word, then a lookahead at the next character, which must not be a letter or digit. */
  function ProbeLiteral(c: seq<char>, i: nat, w: string): (r: Probe)
    requires i <= |c|
    ensures r == Matches ==> i + |w| < |c|
  {
    var word := ProbeWord(c, i, w);
    if word != Matches then word
    else if i + |w| == |c| then ReadsPastEnd
    else if IsLetterOrDigit(c[i + |w|]) then Differs
    else Matches
  }

  // ---------------------------------------------------------------------
  // The runs the CheckFor* helpers collect
  // ---------------------------------------------------------------------

  /** CheckForComment: the end of the run from `i` up to the next `;` or the end of the input. */
  function CommentEnd(c: seq<char>, i: nat): (e: nat)
    requires i <= |c|
    decreases |c| - i
    ensures i <= e <= |c|
    ensures forall k | i <= k < e :: c[k] != ';'
    ensures e == |c| || c[e] == ';'
  {
    if i == |c| || c[i] == ';' then i else CommentEnd(c, i + 1)
  }

  /** CheckForIdentifier: the end of the maximal run of letters, digits and `_` from `i`. */
  function IdentifierEnd(c: seq<char>, i: nat): (e: nat)
    requires i <= |c|
    decreases |c| - i
    ensures i <= e <= |c|
    ensures forall k | i <= k < e :: IsIdentifierChar(c[k])
    ensures e == |c| || !IsIdentifierChar(c[e])
  {
    if i == |c| || !IsIdentifierChar(c[i]) then i else IdentifierEnd(c, i + 1)
  }

  /**
    CheckForString, after the opening quote: the index just past the first
    quote at or after `i` (either quote closes either), or the end of the
    input when there is none.
   */
  function StringEnd(c: seq<char>, i: nat): (e: nat)
    requires i <= |c|
    decreases |c| - i
    ensures i <= e <= |c|
    ensures forall k | i <= k < e - 1 :: !IsQuote(c[k])
    ensures (i < e && IsQuote(c[e - 1])) || (e == |c| && forall k | i <= k < |c| :: !IsQuote(c[k]))
  {
    if i == |c| then i
    else if IsQuote(c[i]) then i + 1
    else StringEnd(c, i + 1)
  }

  datatype NumberScan = Number(end: nat, tokenType: TokenType) | NumberOutOfRange

  /**
    CheckForIntOrFloat's loop from index `i` with its two locals: whether a
    decimal point has been taken, and the token type assigned so far (the
    enum default `Comment` until a branch assigns one).
   */
  function ScanNumber(c: seq<char>, i: nat, isFloat: bool, kind: TokenType): (r: NumberScan)
    requires i <= |c|
    decreases |c| - i
    ensures r.Number? ==> i <= r.end <= |c|
    ensures r.Number? ==> r.tokenType in {kind, IntVariable, FloatVariable}
  {
    if i == |c| then Number(i, kind)
    else if c[i] == '.' && i + 1 == |c| then NumberOutOfRange
    else if c[i] == '.' && IsDigit(c[i + 1]) then ScanNumber(c, i + 1, true, FloatVariable)
    else if !IsDigit(c[i]) && !isFloat then Number(i, IntVariable)
    else if !IsDigit(c[i]) then Number(i, kind)
    else ScanNumber(c, i + 1, isFloat, kind)
  }

  /**
    CheckForOperatorAndEquals at index `p`. Its loop runs once for every
    character the dispatch sends it except `=`, for which no branch applies:
    the loop then neither advances nor breaks.
   */
  function ScanOperator(c: seq<char>, p: nat, line: nat): (r: Lexed)
    requires p < |c|
    ensures r.Lexed? ==> 1 <= |r.token.value| <= 2 && p + |r.token.value| <= |c|
    ensures r.Lexed? ==> r.token.value == c[p..p + |r.token.value|]
  {
    var ch := c[p];
    if ch == '+' || ch == '-' || ch == '*' || ch == '/' then
      Lexed(LexerToken(MathematicalOperator, [ch]))
    else if ch == '>' || ch == '<' then
      if p + 1 == |c| then Raised(OutOfRange)
      else if c[p + 1] == '=' then Lexed(LexerToken(ComparisonOperator, [ch, '=']))
      else Lexed(LexerToken(ComparisonOperator, [ch]))
    else if ch == '!' || ch == '&' || ch == '|' then
      if ch == '!' && p + 1 == |c| then Raised(OutOfRange)
      else if ch == '!' && c[p + 1] != '=' then Raised(CompilerError(ExclamationMessage, line))
      else if ch == '!' then Lexed(LexerToken(ComparisonOperator, "!="))
      else Lexed(LexerToken(ComparisonOperator, [ch]))
    else
      Raised(Diverges)
  }

  // ---------------------------------------------------------------------
  // One pass of the dispatch loop, and the whole scan
  // ---------------------------------------------------------------------

  /**
    One pass of the loop in InputToTokensList at position `p`. The branches
    are tried in the source's order, in five stages: `//`, `var ` and a quote
    here, then `DispatchLiteral`, `DispatchKeyword`, `DispatchWord` and
    `DispatchSymbol`.
   */
  function Dispatch(c: seq<char>, p: nat, line: nat): (s: Step)
    requires p < |c|
    ensures s.Advance? ==> p < s.next <= |c|
    ensures s.Advance? ==> s.line == if c[p] == ';' then line + 1 else line
  {
    var comment := ProbeWord(c, p, "//");
    if comment == ReadsPastEnd then Halt(OutOfRange)
    else if comment == Matches then
      var e := CommentEnd(c, p);
      Advance(Some(LexerToken(Comment, c[p..e])), e, line)
    else
    var isVar := ProbeWord(c, p, "var ");
    if isVar == ReadsPastEnd then Halt(OutOfRange)
    else if isVar == Matches then Advance(Some(LexerToken(VariableDeclaration, "var")), p + 3, line)
    else if IsQuote(c[p]) then
      var e := StringEnd(c, p + 1);
      Advance(Some(LexerToken(StringVariable, c[p..e])), e, line)
    else DispatchLiteral(c, p, line)
  }

  /** The `true`, `false` and digit branches. */
  function DispatchLiteral(c: seq<char>, p: nat, line: nat): (s: Step)
    requires p < |c|
    ensures s.Advance? ==> p < s.next <= |c|
    ensures s.Advance? ==> s.line == if c[p] == ';' then line + 1 else line
  {
    var isTrue := ProbeLiteral(c, p, "true");
    if isTrue == ReadsPastEnd then Halt(OutOfRange)
    else if isTrue == Matches then Advance(Some(LexerToken(BoolVariable, "true")), p + 4, line)
    else
    var isFalse := ProbeLiteral(c, p, "false");
    if isFalse == ReadsPastEnd then Halt(OutOfRange)
    else if isFalse == Matches then Advance(Some(LexerToken(BoolVariable, "false")), p + 5, line)
    else if IsDigit(c[p]) then
      match ScanNumber(c, p, false, Comment)
      case Number(e, kind) => Advance(Some(LexerToken(kind, c[p..e])), e, line)
      case NumberOutOfRange => Halt(OutOfRange)
    else DispatchKeyword(c, p, line)
  }

  /** The `function `, `exclusive ` and `if ` branches: only the letters are consumed. */
  function DispatchKeyword(c: seq<char>, p: nat, line: nat): (s: Step)
    requires p < |c|
    ensures s.Advance? ==> p < s.next <= |c|
    ensures s.Advance? ==> s.line == if c[p] == ';' then line + 1 else line
  {
    var isFunction := ProbeWord(c, p, "function ");
    if isFunction == ReadsPastEnd then Halt(OutOfRange)
    else if isFunction == Matches then Advance(Some(LexerToken(FunctionDeclaration, "function")), p + 8, line)
    else
    var isExclusive := ProbeWord(c, p, "exclusive ");
    if isExclusive == ReadsPastEnd then Halt(OutOfRange)
    else if isExclusive == Matches then Advance(Some(LexerToken(ExclusiveKeyword, "exclusive")), p + 9, line)
    else
    var isIf := ProbeWord(c, p, "if ");
    if isIf == ReadsPastEnd then Halt(OutOfRange)
    else if isIf == Matches then Advance(Some(LexerToken(IfKeyword, "if")), p + 2, line)
    else DispatchWord(c, p, line)
  }

  /** The `for ` and `return ` branches, then an identifier. */
  function DispatchWord(c: seq<char>, p: nat, line: nat): (s: Step)
    requires p < |c|
    ensures s.Advance? ==> p < s.next <= |c|
    ensures s.Advance? ==> s.line == if c[p] == ';' then line + 1 else line
  {
    var isFor := ProbeWord(c, p, "for ");
    if isFor == ReadsPastEnd then Halt(OutOfRange)
    else if isFor == Matches then Advance(Some(LexerToken(ForKeyword, "for")), p + 3, line)
    else
    var isReturn := ProbeWord(c, p, "return ");
    if isReturn == ReadsPastEnd then Halt(OutOfRange)
    else if isReturn == Matches then Advance(Some(LexerToken(ReturnKeyword, "return")), p + 6, line)
    else if IsLetter(c[p]) || c[p] == '_' then
      var e := IdentifierEnd(c, p);
      Advance(Some(LexerToken(Identifier, c[p..e])), e, line)
    else DispatchSymbol(c, p, line)
  }

  /** An operator, `;` (the only branch that counts a line), or a character that starts no token and is skipped. */
  function DispatchSymbol(c: seq<char>, p: nat, line: nat): (s: Step)
    requires p < |c|
    ensures s.Advance? ==> p < s.next <= |c|
    ensures s.Advance? ==> s.line == if c[p] == ';' then line + 1 else line
  {
    if IsOperatorStart(c[p]) then
      match ScanOperator(c, p, line)
      case Lexed(t) => Advance(Some(t), p + |t.value|, line)
      case Raised(o) => Halt(o)
    else if c[p] == ';' then Advance(Some(LexerToken(LineEnding, ";")), p + 1, line + 1)
    else Advance(None, p + 1, line)
  }

  /** Puts a token emitted by one pass in front of what the rest of the scan yields; a failure discards it. */
  function Emit(t: Option<Token>, rest: LexRun): (r: LexRun)
    ensures r.position == rest.position && r.line == rest.line
    ensures !rest.outcome.Completed? ==> r.outcome == rest.outcome
    ensures r.outcome.Completed? ==>
      rest.outcome.Completed? && |r.outcome.tokens| == |rest.outcome.tokens| + (if t.Some? then 1 else 0)
  {
    match t
    case None => rest
    case Some(x) =>
      if rest.outcome.Completed? then rest.(outcome := Completed([x] + rest.outcome.tokens)) else rest
  }

  /**
    The scan InputToTokensList performs from `positionInInput == p` and
    `lineIndex == line` over the characters `c`: the outcome, and the final
    position and line.
   */
  function Scan(c: seq<char>, p: nat, line: nat): (r: LexRun)
    decreases |c| - p, 1
    ensures p <= r.position && line <= r.line
    ensures r.outcome.Completed? && p <= |c| ==> |r.outcome.tokens| <= |c| - p
  {
    if p >= |c| then LexRun(Completed([]), p, line) else Pass(c, p, line)
  }

  /** One pass at `p` followed by the rest of the scan. */
  function Pass(c: seq<char>, p: nat, line: nat): (r: LexRun)
    requires p < |c|
    decreases |c| - p, 0
    ensures p <= r.position && line <= r.line
    ensures r.outcome.Completed? ==> |r.outcome.tokens| <= |c| - p
  {
    match Dispatch(c, p, line)
    case Halt(o) => LexRun(o, p, line)
    case Advance(t, q, l) => Emit(t, Scan(c, q, l))
  }
}
