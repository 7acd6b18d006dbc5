/**
  What the lexer of src/Tokenizer.cs does, stated against the definitions of
  module LexerSpec: which token one pass emits for each kind of character,
  where the pass reads past the end of the input, and what a whole scan
  yields.
 */
module LexerProperties {
  import opened Tokens
  import opened LexerSpec

  /** The word `w` stands in `c` at `p`. */
  predicate StartsWith(c: seq<char>, p: nat, w: string) {
    p + |w| <= |c| && c[p..p + |w|] == w
  }

  // ---------------------------------------------------------------------
  // One pass
  // ---------------------------------------------------------------------

  /**
    A pass emits the characters it consumes, unchanged, as the token's text,
    or skips exactly one character.
   */
  lemma PassEmitsSourceText(c: seq<char>, p: nat, line: nat)
    requires p < |c|
    ensures var s := Dispatch(c, p, line);
      s.Advance? && s.token.Some? ==> s.token.value.value == c[p..s.next] && s.token.value.isOnLine == 0
    ensures var s := Dispatch(c, p, line);
      s.Advance? && s.token.None? ==> s.next == p + 1
  {
    ProbeWordMeaning(c, p, "var ");
    assert StartsWith(c, p, "var ") ==> c[p..p + 3] == "var";
    if !StartsWith(c, p, "var ") && !IsQuote(c[p]) && ProbeWord(c, p, "//") == Differs {
      LiteralPassEmitsSourceText(c, p, line);
    }
  }

  lemma LiteralPassEmitsSourceText(c: seq<char>, p: nat, line: nat)
    requires p < |c|
    ensures var s := DispatchLiteral(c, p, line);
      s.Advance? && s.token.Some? ==> s.token.value.value == c[p..s.next] && s.token.value.isOnLine == 0
    ensures var s := DispatchLiteral(c, p, line);
      s.Advance? && s.token.None? ==> s.next == p + 1
    ensures var s := DispatchLiteral(c, p, line);
      s.Advance? ==> s.line == if c[p] == ';' then line + 1 else line
  {
    ProbeWordMeaning(c, p, "true");
    ProbeWordMeaning(c, p, "false");
    assert StartsWith(c, p, "true") ==> c[p..p + 4] == "true";
    assert StartsWith(c, p, "false") ==> c[p..p + 5] == "false";
    KeywordPassEmitsSourceText(c, p, line);
  }

  lemma KeywordPassEmitsSourceText(c: seq<char>, p: nat, line: nat)
    requires p < |c|
    ensures var s := DispatchKeyword(c, p, line);
      s.Advance? && s.token.Some? ==> s.token.value.value == c[p..s.next] && s.token.value.isOnLine == 0
    ensures var s := DispatchKeyword(c, p, line);
      s.Advance? && s.token.None? ==> s.next == p + 1
    ensures var s := DispatchKeyword(c, p, line);
      s.Advance? ==> s.line == if c[p] == ';' then line + 1 else line
  {
    ProbeWordMeaning(c, p, "function ");
    ProbeWordMeaning(c, p, "exclusive ");
    ProbeWordMeaning(c, p, "if ");
    assert StartsWith(c, p, "function ") ==> c[p..p + 8] == "function";
    assert StartsWith(c, p, "exclusive ") ==> c[p..p + 9] == "exclusive";
    assert StartsWith(c, p, "if ") ==> c[p..p + 2] == "if";
    WordPassEmitsSourceText(c, p, line);
  }

  lemma WordPassEmitsSourceText(c: seq<char>, p: nat, line: nat)
    requires p < |c|
    ensures var s := DispatchWord(c, p, line);
      s.Advance? && s.token.Some? ==> s.token.value.value == c[p..s.next] && s.token.value.isOnLine == 0
    ensures var s := DispatchWord(c, p, line);
      s.Advance? && s.token.None? ==> s.next == p + 1
    ensures var s := DispatchWord(c, p, line);
      s.Advance? ==> s.line == if c[p] == ';' then line + 1 else line
  {
    ProbeWordMeaning(c, p, "for ");
    ProbeWordMeaning(c, p, "return ");
    assert StartsWith(c, p, "for ") ==> c[p..p + 3] == "for";
    assert StartsWith(c, p, "return ") ==> c[p..p + 6] == "return";
    SymbolPassEmitsSourceText(c, p, line);
  }

  lemma SymbolPassEmitsSourceText(c: seq<char>, p: nat, line: nat)
    requires p < |c|
    ensures var s := DispatchSymbol(c, p, line);
      s.Advance? && s.token.Some? ==> s.token.value.value == c[p..s.next] && s.token.value.isOnLine == 0
    ensures var s := DispatchSymbol(c, p, line);
      s.Advance? && s.token.None? ==> s.next == p + 1
    ensures var s := DispatchSymbol(c, p, line);
      s.Advance? ==> s.line == if c[p] == ';' then line + 1 else line
  {
    OperatorTable(c, p, line);
  }

  /**
    The kinds the lexer emits: none of `=`, the brackets, `use`, `external`
    or `.`, which the parser tests for but no branch of the lexer produces.
   */
  predicate LexerKind(t: TokenType) {
    && !t.Equals? && !t.Parenthesis? && !t.CurlyBrace? && !t.SquareBracket?
    && !t.UseKeyword? && !t.ExternalKeyword? && !t.Period?
  }

  /** A pass emits only lexer kinds, and a LineEnding exactly at `;`. */
  lemma PassEmitsLexerKind(c: seq<char>, p: nat, line: nat)
    requires p < |c|
    ensures var s := Dispatch(c, p, line);
      s.Advance? && s.token.Some? ==> LexerKind(s.token.value.tokenType)
    ensures var s := Dispatch(c, p, line);
      s.Advance? && s.token.Some? ==> (s.token.value.tokenType == LineEnding <==> c[p] == ';')
  {
    if c[p] == ';' {
      SemicolonLexed(c, p, line);
    } else {
      LiteralPassEmitsLexerKind(c, p, line);
    }
  }

  lemma LiteralPassEmitsLexerKind(c: seq<char>, p: nat, line: nat)
    requires p < |c| && c[p] != ';'
    ensures var s := DispatchLiteral(c, p, line);
      s.Advance? && s.token.Some? ==> LexerKind(s.token.value.tokenType) && s.token.value.tokenType != LineEnding
  {
    ScanNumberMeaning(c, p, false, Comment);
    KeywordPassEmitsLexerKind(c, p, line);
  }

  lemma KeywordPassEmitsLexerKind(c: seq<char>, p: nat, line: nat)
    requires p < |c| && c[p] != ';'
    ensures var s := DispatchKeyword(c, p, line);
      s.Advance? && s.token.Some? ==> LexerKind(s.token.value.tokenType) && s.token.value.tokenType != LineEnding
  {
    WordPassEmitsLexerKind(c, p, line);
  }

  lemma WordPassEmitsLexerKind(c: seq<char>, p: nat, line: nat)
    requires p < |c| && c[p] != ';'
    ensures var s := DispatchWord(c, p, line);
      s.Advance? && s.token.Some? ==> LexerKind(s.token.value.tokenType) && s.token.value.tokenType != LineEnding
  {
    OperatorTable(c, p, line);
  }

  /**
    The operator scanner: `+ - * /` alone, `<` and `>` with an optional `=`,
    `!` only as `!=` (anything else after it is the fatal diagnostic), `&` and
    `|` alone, and no token at all for `=`.
   */
  lemma OperatorTable(c: seq<char>, p: nat, line: nat)
    requires p < |c|
    ensures var ch := c[p];
      ch in "+-*/" ==> ScanOperator(c, p, line) == Lexed(LexerToken(MathematicalOperator, [ch]))
    ensures var ch := c[p];
      (ch == '<' || ch == '>') && p + 1 < |c| ==>
        ScanOperator(c, p, line) == Lexed(LexerToken(ComparisonOperator, if c[p + 1] == '=' then c[p..p + 2] else [ch]))
    ensures c[p] == '!' && p + 1 < |c| && c[p + 1] == '=' ==>
      ScanOperator(c, p, line) == Lexed(LexerToken(ComparisonOperator, "!="))
    ensures c[p] == '!' && p + 1 < |c| && c[p + 1] != '=' ==>
      ScanOperator(c, p, line) == Raised(CompilerError(ExclamationMessage, line))
    ensures c[p] == '&' || c[p] == '|' ==> ScanOperator(c, p, line) == Lexed(LexerToken(ComparisonOperator, [c[p]]))
    ensures (c[p] in "<>!") && p + 1 == |c| ==> ScanOperator(c, p, line) == Raised(OutOfRange)
    ensures c[p] == '=' ==> ScanOperator(c, p, line) == Raised(Diverges)
    ensures ScanOperator(c, p, line).Lexed? ==> ScanOperator(c, p, line).token.value == c[p..p + |ScanOperator(c, p, line).token.value|]
  {
    if p + 1 < |c| {
      assert c[p..p + 2] == [c[p], c[p + 1]];
    }
    assert c[p..p + 1] == [c[p]];
  }

  /** No branch of the dispatch claims the character: it is skipped. */
  predicate StartsNoToken(ch: char) {
    !IsIdentifierChar(ch) && !IsQuote(ch) && !IsOperatorStart(ch) && ch != ';'
  }

  /**
    A pass emits nothing exactly when the character under the cursor starts
    no token (a space, a bracket, a comma, a period, ...); it then moves on by
    one character.
   */
  lemma SkippedExactlyWhenNoTokenStarts(c: seq<char>, p: nat, line: nat)
    requires p < |c|
    ensures Dispatch(c, p, line) == Advance(None, p + 1, line) <==> StartsNoToken(c[p])
  {
    if StartsNoToken(c[p]) {
      MismatchDiffers(c, p, "//", 0);
      MismatchDiffers(c, p, "var ", 0);
      MismatchDiffers(c, p, "true", 0);
      MismatchDiffers(c, p, "false", 0);
      MismatchDiffers(c, p, "function ", 0);
      MismatchDiffers(c, p, "exclusive ", 0);
      MismatchDiffers(c, p, "if ", 0);
      MismatchDiffers(c, p, "for ", 0);
      MismatchDiffers(c, p, "return ", 0);
    }
  }

  /** A probe fails when the input, inside its bounds, disagrees with the word at index `j`. */
  lemma MismatchDiffers(c: seq<char>, p: nat, u: string, j: nat)
    requires p + j < |c| && j < |u| && c[p + j] != u[j]
    ensures ProbeWord(c, p, u) == Differs
  {
    ProbeWordMeaning(c, p, u);
    assert p + |u| <= |c| ==> c[p..p + |u|][j] == c[p + j];
    assert |c| < p + |u| ==> c[p..][j] == c[p + j];
  }

  /** The probes of the dispatch all fail on a first character that begins none of their words. */
  lemma NoProbeMatches(c: seq<char>, p: nat)
    requires p < |c| && c[p] !in "/vtfeir"
    ensures ProbeWord(c, p, "//") == Differs && ProbeWord(c, p, "var ") == Differs
    ensures ProbeLiteral(c, p, "true") == Differs && ProbeLiteral(c, p, "false") == Differs
    ensures ProbeWord(c, p, "function ") == Differs && ProbeWord(c, p, "exclusive ") == Differs
    ensures ProbeWord(c, p, "if ") == Differs && ProbeWord(c, p, "for ") == Differs
    ensures ProbeWord(c, p, "return ") == Differs
  {
    MismatchDiffers(c, p, "//", 0);
    MismatchDiffers(c, p, "var ", 0);
    MismatchDiffers(c, p, "true", 0);
    MismatchDiffers(c, p, "false", 0);
    MismatchDiffers(c, p, "function ", 0);
    MismatchDiffers(c, p, "exclusive ", 0);
    MismatchDiffers(c, p, "if ", 0);
    MismatchDiffers(c, p, "for ", 0);
    MismatchDiffers(c, p, "return ", 0);
  }

  /** A pass never ends on anything but `=`, on which the operator scanner spins forever. */
  lemma OnlyEqualsDiverges(c: seq<char>, p: nat, line: nat)
    requires p < |c|
    ensures Dispatch(c, p, line) == Halt(Diverges) <==> c[p] == '='
  {
    if c[p] == '=' {
      NoProbeMatches(c, p);
    }
  }

  /**
    The lexer's one diagnostic: `!` followed by anything but `=`, reported
    with the current value of the line counter.
   */
  lemma FatalOnlyOnLoneExclamation(c: seq<char>, p: nat, line: nat)
    requires p < |c|
    ensures Dispatch(c, p, line).Halt? && Dispatch(c, p, line).outcome.CompilerError? <==>
      c[p] == '!' && p + 1 < |c| && c[p + 1] != '='
    ensures Dispatch(c, p, line).Halt? && Dispatch(c, p, line).outcome.CompilerError? ==>
      Dispatch(c, p, line).outcome == CompilerError(ExclamationMessage, line)
  {
    if c[p] == '!' {
      NoProbeMatches(c, p);
    }
  }

  // ---------------------------------------------------------------------
  // Keywords, literals and identifiers
  // ---------------------------------------------------------------------

  /** The keywords the dispatch recognises when a space follows them. */
  predicate IsKeyword(w: string) {
    w == "var" || w == "function" || w == "exclusive" || w == "if" || w == "for" || w == "return"
  }

  /** The token kind of each keyword. */
  function KeywordType(w: string): (t: TokenType)
    requires IsKeyword(w)
    ensures t in {VariableDeclaration, FunctionDeclaration, ExclusiveKeyword, IfKeyword, ForKeyword, ReturnKeyword}
  {
    if w == "var" then VariableDeclaration
    else if w == "function" then FunctionDeclaration
    else if w == "exclusive" then ExclusiveKeyword
    else if w == "if" then IfKeyword
    else if w == "for" then ForKeyword
    else ReturnKeyword
  }

  /** `true` or `false` followed by a character that is not a letter or digit. */
  predicate BoolAt(c: seq<char>, p: nat, w: string) {
    StartsWith(c, p, w) && p + |w| < |c| && !IsLetterOrDigit(c[p + |w|])
  }

  /** MismatchDiffers where the text at `p` is known to be the word `v`, which disagrees with `u` at index `j`. */
  lemma ProbeDiffers(c: seq<char>, p: nat, v: string, u: string, j: nat)
    requires StartsWith(c, p, v) && j < |v| && j < |u| && v[j] != u[j]
    ensures ProbeWord(c, p, u) == Differs
  {
    assert c[p + j] == c[p..p + |v|][j] == v[j];
    MismatchDiffers(c, p, u, j);
  }

  /**
    A keyword followed by a space: the keyword's token, with only its letters
    consumed; the next pass skips the space.
   */
  lemma KeywordLexed(c: seq<char>, p: nat, line: nat, w: string)
    requires IsKeyword(w) && StartsWith(c, p, w + " ")
    ensures Dispatch(c, p, line) == Advance(Some(LexerToken(KeywordType(w), w)), p + |w|, line)
    ensures Dispatch(c, p + |w|, line) == Advance(None, p + |w| + 1, line)
  {
    var v := w + " ";
    if w == "var" {
      assert v == "var ";
      VarLexed(c, p, line);
    } else if w == "function" {
      assert v == "function ";
      FunctionLexed(c, p, line);
    } else if w == "exclusive" {
      assert v == "exclusive ";
      ExclusiveLexed(c, p, line);
    } else if w == "if" {
      assert v == "if ";
      IfLexed(c, p, line);
    } else if w == "for" {
      assert v == "for ";
      ForLexed(c, p, line);
    } else {
      assert v == "return ";
      ReturnLexed(c, p, line);
    }
    SpaceAfterWordSkipped(c, p, line, w);
  }

  /** The space after a word the pass consumed is skipped by the next pass. */
  lemma SpaceAfterWordSkipped(c: seq<char>, p: nat, line: nat, w: string)
    requires StartsWith(c, p, w + " ")
    ensures Dispatch(c, p + |w|, line) == Advance(None, p + |w| + 1, line)
  {
    var v := w + " ";
    assert c[p + |w|] == c[p..p + |v|][|w|] == ' ';
    SkippedExactlyWhenNoTokenStarts(c, p + |w|, line);
  }

  lemma VarLexed(c: seq<char>, p: nat, line: nat)
    requires StartsWith(c, p, "var ")
    ensures Dispatch(c, p, line) == Advance(Some(LexerToken(VariableDeclaration, "var")), p + 3, line)
  {
    assert c[p] == c[p..p + 4][0] == 'v';
    ProbeDiffers(c, p, "var ", "//", 0);
    ProbeWordMeaning(c, p, "var ");
  }

  /** Every probe before the one for `v` fails on the text `v` at `p`. */
  lemma EarlyProbesDiffer(c: seq<char>, p: nat, v: string)
    requires StartsWith(c, p, v) && |v| >= 2 && v[0] in "feir" && (v[0] == 'f' ==> v[1] != 'a')
    ensures ProbeWord(c, p, "//") == Differs && ProbeWord(c, p, "var ") == Differs
    ensures ProbeLiteral(c, p, "true") == Differs && ProbeLiteral(c, p, "false") == Differs
    ensures !IsQuote(c[p]) && !IsDigit(c[p])
  {
    assert c[p] == c[p..p + |v|][0] == v[0];
    ProbeDiffers(c, p, v, "//", 0);
    ProbeDiffers(c, p, v, "var ", 0);
    ProbeDiffers(c, p, v, "true", 0);
    ProbeDiffers(c, p, v, "false", if v[0] == 'f' then 1 else 0);
  }

  lemma FunctionLexed(c: seq<char>, p: nat, line: nat)
    requires StartsWith(c, p, "function ")
    ensures Dispatch(c, p, line) == Advance(Some(LexerToken(FunctionDeclaration, "function")), p + 8, line)
  {
    EarlyProbesDiffer(c, p, "function ");
    ProbeWordMeaning(c, p, "function ");
  }

  lemma ExclusiveLexed(c: seq<char>, p: nat, line: nat)
    requires StartsWith(c, p, "exclusive ")
    ensures Dispatch(c, p, line) == Advance(Some(LexerToken(ExclusiveKeyword, "exclusive")), p + 9, line)
  {
    EarlyProbesDiffer(c, p, "exclusive ");
    ProbeDiffers(c, p, "exclusive ", "function ", 0);
    ProbeWordMeaning(c, p, "exclusive ");
  }

  lemma IfLexed(c: seq<char>, p: nat, line: nat)
    requires StartsWith(c, p, "if ")
    ensures Dispatch(c, p, line) == Advance(Some(LexerToken(IfKeyword, "if")), p + 2, line)
  {
    EarlyProbesDiffer(c, p, "if ");
    ProbeDiffers(c, p, "if ", "function ", 0);
    ProbeDiffers(c, p, "if ", "exclusive ", 0);
    ProbeWordMeaning(c, p, "if ");
  }

  lemma ForLexed(c: seq<char>, p: nat, line: nat)
    requires StartsWith(c, p, "for ")
    ensures Dispatch(c, p, line) == Advance(Some(LexerToken(ForKeyword, "for")), p + 3, line)
  {
    EarlyProbesDiffer(c, p, "for ");
    ProbeDiffers(c, p, "for ", "function ", 1);
    ProbeDiffers(c, p, "for ", "exclusive ", 0);
    ProbeDiffers(c, p, "for ", "if ", 0);
    ProbeWordMeaning(c, p, "for ");
  }

  lemma ReturnLexed(c: seq<char>, p: nat, line: nat)
    requires StartsWith(c, p, "return ")
    ensures Dispatch(c, p, line) == Advance(Some(LexerToken(ReturnKeyword, "return")), p + 6, line)
  {
    EarlyProbesDiffer(c, p, "return ");
    ProbeDiffers(c, p, "return ", "function ", 0);
    ProbeDiffers(c, p, "return ", "exclusive ", 0);
    ProbeDiffers(c, p, "return ", "if ", 0);
    ProbeDiffers(c, p, "return ", "for ", 0);
    ProbeWordMeaning(c, p, "return ");
  }

  /** A keyword followed by a space stands at `p`. */
  predicate KeywordAt(c: seq<char>, p: nat) {
    StartsWith(c, p, "var ") || StartsWith(c, p, "function ") || StartsWith(c, p, "exclusive ") ||
    StartsWith(c, p, "if ") || StartsWith(c, p, "for ") || StartsWith(c, p, "return ")
  }

  /** A probe that matches exactly when its word stands at `p`. */
  lemma ProbeMatches(c: seq<char>, p: nat, v: string)
    requires p <= |c|
    ensures ProbeWord(c, p, v) == Matches <==> StartsWith(c, p, v)
  {
    ProbeWordMeaning(c, p, v);
  }

  // The dispatch reaches its later stages when the earlier probes fail.

  lemma ReachesLiteralStage(c: seq<char>, p: nat, line: nat)
    requires p < |c| && ProbeWord(c, p, "//") == Differs && ProbeWord(c, p, "var ") == Differs && !IsQuote(c[p])
    ensures Dispatch(c, p, line) == DispatchLiteral(c, p, line)
  {
  }

  lemma ReachesKeywordStage(c: seq<char>, p: nat, line: nat)
    requires p < |c| && ProbeLiteral(c, p, "true") == Differs && ProbeLiteral(c, p, "false") == Differs && !IsDigit(c[p])
    ensures DispatchLiteral(c, p, line) == DispatchKeyword(c, p, line)
  {
  }

  lemma ReachesWordStage(c: seq<char>, p: nat, line: nat)
    requires p < |c| && ProbeWord(c, p, "function ") == Differs && ProbeWord(c, p, "exclusive ") == Differs
    requires ProbeWord(c, p, "if ") == Differs
    ensures DispatchKeyword(c, p, line) == DispatchWord(c, p, line)
  {
  }

  lemma ReachesIdentifierBranch(c: seq<char>, p: nat, line: nat)
    requires p < |c| && ProbeWord(c, p, "for ") == Differs && ProbeWord(c, p, "return ") == Differs
    requires IsLetter(c[p]) || c[p] == '_'
    ensures DispatchWord(c, p, line) == Advance(Some(LexerToken(Identifier, c[p..IdentifierEnd(c, p)])), IdentifierEnd(c, p), line)
  {
  }

  /**
    A letter or `_` where neither `true`/`false` followed by a character
    that is not a letter or digit nor a keyword followed by a space stands,
    and where the input does not end inside a word the dispatch probes for:
    an identifier token holding the whole run.
   */
  lemma IdentifierLexed(c: seq<char>, p: nat, line: nat)
    requires p < |c| && (IsLetter(c[p]) || c[p] == '_') && !TruncatedAt(c, p)
    requires !BoolAt(c, p, "true") && !BoolAt(c, p, "false") && !KeywordAt(c, p)
    ensures var e := IdentifierEnd(c, p);
      Dispatch(c, p, line) == Advance(Some(LexerToken(Identifier, c[p..e])), e, line)
  {
    WordProbesDiffer(c, p);
    ReachesIdentifier(c, p, line);
  }

  /** When every probe fails at a letter or `_`, the pass falls through to the identifier branch. */
  lemma ReachesIdentifier(c: seq<char>, p: nat, line: nat)
    requires p < |c| && (IsLetter(c[p]) || c[p] == '_')
    requires ProbeWord(c, p, "//") == Differs && ProbeWord(c, p, "var ") == Differs
    requires ProbeLiteral(c, p, "true") == Differs && ProbeLiteral(c, p, "false") == Differs
    requires ProbeWord(c, p, "function ") == Differs && ProbeWord(c, p, "exclusive ") == Differs
    requires ProbeWord(c, p, "if ") == Differs && ProbeWord(c, p, "for ") == Differs
    requires ProbeWord(c, p, "return ") == Differs
    ensures Dispatch(c, p, line) == Advance(Some(LexerToken(Identifier, c[p..IdentifierEnd(c, p)])), IdentifierEnd(c, p), line)
  {
    ReachesKeywordStageFromStart(c, p, line);
    ReachesWordStage(c, p, line);
    ReachesIdentifierBranch(c, p, line);
  }

  /** When the comment, `var` and literal probes fail at a letter or `_`, the pass reaches the keyword stage. */
  lemma ReachesKeywordStageFromStart(c: seq<char>, p: nat, line: nat)
    requires p < |c| && (IsLetter(c[p]) || c[p] == '_')
    requires ProbeWord(c, p, "//") == Differs && ProbeWord(c, p, "var ") == Differs
    requires ProbeLiteral(c, p, "true") == Differs && ProbeLiteral(c, p, "false") == Differs
    ensures Dispatch(c, p, line) == DispatchKeyword(c, p, line)
  {
    ReachesLiteralStage(c, p, line);
    ReachesKeywordStage(c, p, line);
  }

  lemma WordProbesDiffer(c: seq<char>, p: nat)
    requires p < |c| && (IsLetter(c[p]) || c[p] == '_') && !TruncatedAt(c, p)
    requires !BoolAt(c, p, "true") && !BoolAt(c, p, "false") && !KeywordAt(c, p)
    ensures ProbeWord(c, p, "//") == Differs && ProbeWord(c, p, "var ") == Differs
    ensures ProbeLiteral(c, p, "true") == Differs && ProbeLiteral(c, p, "false") == Differs
    ensures ProbeWord(c, p, "function ") == Differs && ProbeWord(c, p, "exclusive ") == Differs
    ensures ProbeWord(c, p, "if ") == Differs && ProbeWord(c, p, "for ") == Differs
    ensures ProbeWord(c, p, "return ") == Differs
  {
    MismatchDiffers(c, p, "//", 0);
    KeywordProbesDiffer(c, p);
    LiteralDiffers(c, p, "true");
    LiteralDiffers(c, p, "false");
  }

  /** The probe of `true` or `false` fails where the literal does not stand and the input does not end inside it or right after it. */
  lemma LiteralDiffers(c: seq<char>, p: nat, w: string)
    requires p < |c| && !CutShort(c, p, w + " ") && !BoolAt(c, p, w)
    ensures ProbeLiteral(c, p, w) == Differs
  {
    ProbeWordMeaning(c, p, w);
    assert p + |w| == |c| ==> (w + " ")[..|w|] == w;
    assert |c| < p + |w| ==> (w + " ")[..|c| - p] == w[..|c| - p];
  }

  /** Where no keyword and its space stands and the input does not end inside one, every keyword probe fails. */
  lemma KeywordProbesDiffer(c: seq<char>, p: nat)
    requires p < |c| && !KeywordAt(c, p)
    requires !CutShort(c, p, "var ") && !CutShort(c, p, "function ") && !CutShort(c, p, "exclusive ")
    requires !CutShort(c, p, "if ") && !CutShort(c, p, "for ") && !CutShort(c, p, "return ")
    ensures ProbeWord(c, p, "var ") == Differs
    ensures ProbeWord(c, p, "function ") == Differs && ProbeWord(c, p, "exclusive ") == Differs
    ensures ProbeWord(c, p, "if ") == Differs && ProbeWord(c, p, "for ") == Differs
    ensures ProbeWord(c, p, "return ") == Differs
  {
    ShortProbe(c, p, "var ");
    ProbeMatches(c, p, "var ");
    ShortProbe(c, p, "function ");
    ProbeMatches(c, p, "function ");
    ShortProbe(c, p, "exclusive ");
    ProbeMatches(c, p, "exclusive ");
    ShortProbe(c, p, "if ");
    ProbeMatches(c, p, "if ");
    ShortProbe(c, p, "for ");
    ProbeMatches(c, p, "for ");
    ShortProbe(c, p, "return ");
    ProbeMatches(c, p, "return ");
  }

  /**
    A letter or `_` that begins no word the dispatch probes for: an
    identifier token holding the maximal run from `p`.
   */
  lemma PlainIdentifierLexed(c: seq<char>, p: nat, line: nat)
    requires p < |c| && (IsLetter(c[p]) || c[p] == '_') && c[p] !in "vtfeir"
    ensures var e := IdentifierEnd(c, p);
      Dispatch(c, p, line) == Advance(Some(LexerToken(Identifier, c[p..e])), e, line)
  {
    NoProbeMatches(c, p);
    ReachesIdentifier(c, p, line);
  }

  /**
    `true` and `false` are a BoolVariable with that text when the character
    after them is not a letter or digit; otherwise the whole run is an
    identifier.
   */
  lemma BoolLexed(c: seq<char>, p: nat, line: nat, w: string)
    requires (w == "true" || w == "false") && StartsWith(c, p, w) && p + |w| < |c|
    ensures !IsLetterOrDigit(c[p + |w|]) ==> Dispatch(c, p, line) == Advance(Some(LexerToken(BoolVariable, w)), p + |w|, line)
    ensures IsLetterOrDigit(c[p + |w|]) ==> var e := IdentifierEnd(c, p);
      Dispatch(c, p, line) == Advance(Some(LexerToken(Identifier, c[p..e])), e, line)
  {
    ProbeMatches(c, p, w);
    if w == "true" {
      ProbeDiffers(c, p, w, "//", 0);
      ProbeDiffers(c, p, w, "var ", 0);
      if IsLetterOrDigit(c[p + |w|]) {
        ProbeDiffers(c, p, w, "false", 0);
        LaterProbesDiffer(c, p, w);
      }
    } else {
      ProbeDiffers(c, p, w, "//", 0);
      ProbeDiffers(c, p, w, "var ", 0);
      ProbeDiffers(c, p, w, "true", 0);
      if IsLetterOrDigit(c[p + |w|]) {
        LaterProbesDiffer(c, p, w);
      }
    }
    if IsLetterOrDigit(c[p + |w|]) {
      assert c[p] == c[p..p + |w|][0] == w[0];
      ReachesIdentifier(c, p, line);
    }
  }

  /** The keyword probes fail on `true` and `false`. */
  lemma LaterProbesDiffer(c: seq<char>, p: nat, w: string)
    requires (w == "true" || w == "false") && StartsWith(c, p, w)
    ensures ProbeWord(c, p, "function ") == Differs && ProbeWord(c, p, "exclusive ") == Differs
    ensures ProbeWord(c, p, "if ") == Differs && ProbeWord(c, p, "for ") == Differs
    ensures ProbeWord(c, p, "return ") == Differs
  {
    var j := if w == "true" then 0 else 1;
    ProbeDiffers(c, p, w, "function ", j);
    ProbeDiffers(c, p, w, "exclusive ", 0);
    ProbeDiffers(c, p, w, "if ", 0);
    ProbeDiffers(c, p, w, "for ", j);
    ProbeDiffers(c, p, w, "return ", 0);
  }

  /**
    Since `_` is not a letter or digit, `true_` is the BoolVariable `true`
    followed by an identifier that starts at the underscore.
   */
  lemma TrueUnderscoreSplits(c: seq<char>, p: nat, line: nat)
    requires StartsWith(c, p, "true_")
    ensures Dispatch(c, p, line) == Advance(Some(LexerToken(BoolVariable, "true")), p + 4, line)
    ensures var e := IdentifierEnd(c, p + 4);
      Dispatch(c, p + 4, line) == Advance(Some(LexerToken(Identifier, c[p + 4..e])), e, line)
  {
    assert c[p + 4] == c[p..p + 5][4] == '_';
    assert c[p..p + 4] == c[p..p + 5][..4] == "true";
    BoolLexed(c, p, line, "true");
    PlainIdentifierLexed(c, p + 4, line);
  }

  // ---------------------------------------------------------------------
  // Numbers
  // ---------------------------------------------------------------------

  /**
    The type of a number token: FloatVariable when it holds a point, else
    IntVariable when a character ended it, else (the input ended it) the
    default type `Comment`.
   */
  function NumberKind(hasPoint: bool, endedByCharacter: bool): TokenType {
    if hasPoint then FloatVariable else if endedByCharacter then IntVariable else Comment
  }

  /** A character the number scanner takes: a digit, or a `.` followed by a digit. */
  predicate NumberChar(c: seq<char>, k: nat)
    requires k < |c|
  {
    IsDigit(c[k]) || (c[k] == '.' && k + 1 < |c| && IsDigit(c[k + 1]))
  }

  /**
    The number scanner from `i`, with a decimal point already taken or not
    (and the token type that goes with it): it stops with an out-of-range read
    exactly when its run reaches a `.` in the last position; otherwise the
    token ends at the end of the maximal run of digits and `.`-before-digit,
    and is a FloatVariable when it holds a point, an IntVariable when a
    character ended it, and keeps the type `Comment` when the input ended it.
   */
  lemma {:induction false} ScanNumberMeaning(c: seq<char>, i: nat, isFloat: bool, kind: TokenType)
    requires i <= |c|
    requires if isFloat then kind == FloatVariable else kind == Comment
    decreases |c| - i
    ensures ScanNumber(c, i, isFloat, kind).NumberOutOfRange? <==>
      i < |c| && c[|c| - 1] == '.' && forall k | i <= k < |c| - 1 :: NumberChar(c, k)
    ensures var r := ScanNumber(c, i, isFloat, kind);
      r.Number? ==> (forall k | i <= k < r.end :: NumberChar(c, k)) && (r.end == |c| || !NumberChar(c, r.end))
    ensures var r := ScanNumber(c, i, isFloat, kind);
      r.Number? ==> r.tokenType == NumberKind(isFloat || '.' in c[i..r.end], r.end < |c|)
  {
    if i < |c| {
      if c[i] == '.' && i + 1 == |c| {
      } else if c[i] == '.' && IsDigit(c[i + 1]) {
        ScanNumberMeaning(c, i + 1, true, FloatVariable);
      } else if !IsDigit(c[i]) {
        assert !NumberChar(c, i);
      } else {
        ScanNumberMeaning(c, i + 1, isFloat, kind);
        var r := ScanNumber(c, i + 1, isFloat, kind);
        if r.Number? {
          assert c[i..r.end] == [c[i]] + c[i + 1..r.end];
        }
      }
    }
  }

  /**
    A pass at a digit reads a number: it raises an out-of-range error exactly
    when the run of digits and points reaches a `.` in the last position, and
    otherwise emits the maximal such run with its type.
   */
  lemma NumberLexed(c: seq<char>, p: nat, line: nat)
    requires p < |c| && IsDigit(c[p])
    ensures Dispatch(c, p, line).Halt? <==> c[|c| - 1] == '.' && forall k | p <= k < |c| - 1 :: NumberChar(c, k)
    ensures var s := Dispatch(c, p, line);
      s.Halt? ==> s.outcome == OutOfRange
    ensures var s := Dispatch(c, p, line);
      s.Advance? ==> s.line == line && s.token.Some? && s.token.value.value == c[p..s.next]
    ensures var s := Dispatch(c, p, line);
      s.Advance? ==> (forall k | p <= k < s.next :: NumberChar(c, k)) && (s.next == |c| || !NumberChar(c, s.next))
    ensures var s := Dispatch(c, p, line);
      s.Advance? ==> s.token.value.tokenType == NumberKind('.' in c[p..s.next], s.next < |c|)
  {
    NoProbeMatches(c, p);
    ReachesLiteralStage(c, p, line);
    ScanNumberMeaning(c, p, false, Comment);
  }

  // ---------------------------------------------------------------------
  // Strings, comments and line endings
  // ---------------------------------------------------------------------

  /** A `;` is a LineEnding token of its own and the only thing that advances the line counter. */
  lemma SemicolonLexed(c: seq<char>, p: nat, line: nat)
    requires p < |c| && c[p] == ';'
    ensures Dispatch(c, p, line) == Advance(Some(LexerToken(LineEnding, ";")), p + 1, line + 1)
  {
    NoProbeMatches(c, p);
    ReachesLiteralStage(c, p, line);
    ReachesKeywordStage(c, p, line);
    ReachesWordStage(c, p, line);
    ReachesSymbolStage(c, p, line);
  }

  lemma ReachesSymbolStage(c: seq<char>, p: nat, line: nat)
    requires p < |c| && ProbeWord(c, p, "for ") == Differs && ProbeWord(c, p, "return ") == Differs
    requires !IsLetter(c[p]) && c[p] != '_'
    ensures DispatchWord(c, p, line) == DispatchSymbol(c, p, line)
  {
  }

  /**
    A quote (either kind) opens a string token that keeps its quotes and ends
    just past the next quote of either kind; an unterminated string runs to
    the end of the input.
   */
  lemma StringLexed(c: seq<char>, p: nat, line: nat)
    requires p < |c| && IsQuote(c[p])
    ensures var s := Dispatch(c, p, line);
      s.Advance? && s.line == line && s.token == Some(LexerToken(StringVariable, c[p..s.next]))
    ensures var s := Dispatch(c, p, line);
      s.Advance? ==> forall k | p < k < s.next - 1 :: !IsQuote(c[k])
    ensures var s := Dispatch(c, p, line);
      s.Advance? ==> (p + 1 < s.next && IsQuote(c[s.next - 1])) || (s.next == |c| && forall k | p < k < |c| :: !IsQuote(c[k]))
  {
    NoProbeMatches(c, p);
  }

  /**
    `//` opens a comment token that runs up to, not including, the next `;`
    (or to the end of the input); the `;` that ends it is then read as a
    LineEnding, which advances the line.
   */
  lemma CommentLexed(c: seq<char>, p: nat, line: nat)
    requires StartsWith(c, p, "//")
    ensures var s := Dispatch(c, p, line);
      s.Advance? && s.line == line && s.token == Some(LexerToken(Comment, c[p..s.next]))
    ensures var s := Dispatch(c, p, line);
      s.Advance? ==> (forall k | p <= k < s.next :: c[k] != ';') && (s.next == |c| || c[s.next] == ';')
    ensures var s := Dispatch(c, p, line);
      s.Advance? && s.next < |c| ==> Dispatch(c, s.next, line) == Advance(Some(LexerToken(LineEnding, ";")), s.next + 1, line + 1)
  {
    ProbeMatches(c, p, "//");
    var e := CommentEnd(c, p);
    if e < |c| {
      SemicolonLexed(c, e, line);
    }
  }

  // ---------------------------------------------------------------------
  // Reads past the end of the input
  // ---------------------------------------------------------------------

  /** The input ends inside `w` at `p`: what is left is a nonempty proper prefix of `w`. */
  predicate CutShort(c: seq<char>, p: nat, w: string) {
    p < |c| < p + |w| && c[p..] == w[..|c| - p]
  }

  /**
    The input ends inside a token whose scanner looks past it: a word the
    dispatch probes for (`true` and `false` with the character that must
    follow them), a comparison or `!` that looks for `=`, or a number whose
    last character is a point.
   */
  predicate TruncatedAt(c: seq<char>, p: nat)
    requires p < |c|
  {
    || CutShort(c, p, "//") || CutShort(c, p, "var ")
    || CutShort(c, p, "true ") || CutShort(c, p, "false ")
    || CutShort(c, p, "function ") || CutShort(c, p, "exclusive ") || CutShort(c, p, "if ")
    || CutShort(c, p, "for ") || CutShort(c, p, "return ")
    || (p == |c| - 1 && c[p] in "<>!")
    || (IsDigit(c[p]) && c[|c| - 1] == '.' && forall k | p <= k < |c| - 1 :: NumberChar(c, k))
  }

  lemma ShortProbe(c: seq<char>, p: nat, w: string)
    requires p < |c|
    ensures ProbeWord(c, p, w) == ReadsPastEnd <==> CutShort(c, p, w)
  {
    ProbeWordMeaning(c, p, w);
  }

  lemma ShortLiteral(c: seq<char>, p: nat, w: string)
    requires p < |c| && ProbeLiteral(c, p, w) == ReadsPastEnd
    ensures CutShort(c, p, w + " ")
  {
    ProbeWordMeaning(c, p, w);
    if ProbeWord(c, p, w) == Matches {
      assert c[p..] == c[p..p + |w|];
      assert (w + " ")[..|w|] == w;
    } else {
      assert (w + " ")[..|c| - p] == w[..|c| - p];
    }
  }

  lemma SymbolOutOfRange(c: seq<char>, p: nat, line: nat)
    requires p < |c| && DispatchSymbol(c, p, line) == Halt(OutOfRange)
    ensures p == |c| - 1 && c[p] in "<>!"
  {
    OperatorTable(c, p, line);
  }

  lemma WordOutOfRange(c: seq<char>, p: nat, line: nat)
    requires p < |c| && DispatchWord(c, p, line) == Halt(OutOfRange)
    ensures CutShort(c, p, "for ") || CutShort(c, p, "return ") || DispatchSymbol(c, p, line) == Halt(OutOfRange)
  {
    ShortProbe(c, p, "for ");
    ShortProbe(c, p, "return ");
  }

  lemma KeywordOutOfRange(c: seq<char>, p: nat, line: nat)
    requires p < |c| && DispatchKeyword(c, p, line) == Halt(OutOfRange)
    ensures CutShort(c, p, "function ") || CutShort(c, p, "exclusive ") || CutShort(c, p, "if ")
      || DispatchWord(c, p, line) == Halt(OutOfRange)
  {
    ShortProbe(c, p, "function ");
    ShortProbe(c, p, "exclusive ");
    ShortProbe(c, p, "if ");
  }

  lemma LiteralOutOfRange(c: seq<char>, p: nat, line: nat)
    requires p < |c| && DispatchLiteral(c, p, line) == Halt(OutOfRange)
    ensures || CutShort(c, p, "true ") || CutShort(c, p, "false ")
      || (IsDigit(c[p]) && c[|c| - 1] == '.' && forall k | p <= k < |c| - 1 :: NumberChar(c, k))
      || DispatchKeyword(c, p, line) == Halt(OutOfRange)
  {
    if ProbeLiteral(c, p, "true") == ReadsPastEnd {
      ShortLiteral(c, p, "true");
    } else if ProbeLiteral(c, p, "false") == ReadsPastEnd {
      ShortLiteral(c, p, "false");
    } else if IsDigit(c[p]) {
      ScanNumberMeaning(c, p, false, Comment);
    }
  }

  lemma FirstStageOutOfRange(c: seq<char>, p: nat, line: nat)
    requires p < |c| && Dispatch(c, p, line) == Halt(OutOfRange)
    ensures CutShort(c, p, "//") || CutShort(c, p, "var ") || DispatchLiteral(c, p, line) == Halt(OutOfRange)
  {
    ShortProbe(c, p, "//");
    ShortProbe(c, p, "var ");
  }

  /** A pass reads out of range only when the input ends inside a token it looks past. */
  lemma OutOfRangeOnlyWhenTruncated(c: seq<char>, p: nat, line: nat)
    requires p < |c| && Dispatch(c, p, line) == Halt(OutOfRange)
    ensures TruncatedAt(c, p)
  {
    FirstStageOutOfRange(c, p, line);
    if DispatchLiteral(c, p, line) == Halt(OutOfRange) {
      LiteralOutOfRange(c, p, line);
      if DispatchKeyword(c, p, line) == Halt(OutOfRange) {
        KeywordOutOfRange(c, p, line);
        if DispatchWord(c, p, line) == Halt(OutOfRange) {
          WordOutOfRange(c, p, line);
          if DispatchSymbol(c, p, line) == Halt(OutOfRange) {
            SymbolOutOfRange(c, p, line);
          }
        }
      }
    }
  }

  lemma CutShortChar(c: seq<char>, p: nat, w: string, j: nat)
    requires CutShort(c, p, w) && p + j < |c|
    ensures c[p + j] == w[j]
  {
    assert c[p + j] == c[p..][j];
  }

  /** `true` or `false`, whole or cut short, at the end of the input: the lookahead reads past it. */
  lemma LiteralReadsPastEnd(c: seq<char>, p: nat, w: string)
    requires CutShort(c, p, w + " ")
    ensures ProbeLiteral(c, p, w) == ReadsPastEnd
  {
    ProbeWordMeaning(c, p, w);
    if |c| - p == |w| {
      assert c[p..p + |w|] == c[p..] == (w + " ")[..|w|] == w;
    } else {
      assert w[..|c| - p] == (w + " ")[..|c| - p];
    }
  }

  lemma ShortCommentOrVar(c: seq<char>, p: nat, line: nat)
    requires CutShort(c, p, "//") || CutShort(c, p, "var ")
    ensures Dispatch(c, p, line) == Halt(OutOfRange)
  {
    ShortProbe(c, p, "//");
    ShortProbe(c, p, "var ");
    if CutShort(c, p, "var ") {
      CutShortChar(c, p, "var ", 0);
      MismatchDiffers(c, p, "//", 0);
    }
  }

  lemma ShortLiteralWord(c: seq<char>, p: nat, line: nat, w: string)
    requires (w == "true" || w == "false") && CutShort(c, p, w + " ")
    ensures Dispatch(c, p, line) == Halt(OutOfRange)
  {
    CutShortChar(c, p, w + " ", 0);
    MismatchDiffers(c, p, "//", 0);
    MismatchDiffers(c, p, "var ", 0);
    if w == "false" {
      MismatchDiffers(c, p, "true", 0);
    }
    LiteralReadsPastEnd(c, p, w);
    ReachesLiteralStage(c, p, line);
  }

  /** A keyword cut short after its first letter, which neither `true` nor `false` shares. */
  lemma ShortKeyword(c: seq<char>, p: nat, line: nat, v: string)
    requires v == "function " || v == "exclusive " || v == "if " || v == "for " || v == "return "
    requires CutShort(c, p, v) && (v[0] == 'f' ==> p + 1 < |c|)
    ensures Dispatch(c, p, line) == Halt(OutOfRange)
  {
    CutShortChar(c, p, v, 0);
    MismatchDiffers(c, p, "//", 0);
    MismatchDiffers(c, p, "var ", 0);
    MismatchDiffers(c, p, "true", 0);
    if v[0] == 'f' {
      CutShortChar(c, p, v, 1);
      MismatchDiffers(c, p, "false", 1);
    } else {
      MismatchDiffers(c, p, "false", 0);
    }
    ReachesLiteralStage(c, p, line);
    ReachesKeywordStage(c, p, line);
    ShortProbe(c, p, v);
    if v == "for " || v == "return " {
      MismatchDiffers(c, p, "function ", if v == "for " then 1 else 0);
      MismatchDiffers(c, p, "exclusive ", 0);
      MismatchDiffers(c, p, "if ", 0);
      ReachesWordStage(c, p, line);
      if v == "return " {
        MismatchDiffers(c, p, "for ", 0);
      }
    } else if v != "function " {
      MismatchDiffers(c, p, "function ", 0);
      if v == "if " {
        MismatchDiffers(c, p, "exclusive ", 0);
      }
    }
  }

  lemma ShortOperatorOrNumber(c: seq<char>, p: nat, line: nat)
    requires p < |c|
    requires (p == |c| - 1 && c[p] in "<>!") || (IsDigit(c[p]) && c[|c| - 1] == '.' && forall k | p <= k < |c| - 1 :: NumberChar(c, k))
    ensures Dispatch(c, p, line) == Halt(OutOfRange)
  {
    NoProbeMatches(c, p);
    if IsDigit(c[p]) {
      NumberLexed(c, p, line);
    } else {
      ReachesLiteralStage(c, p, line);
      ReachesKeywordStage(c, p, line);
      ReachesWordStage(c, p, line);
      ReachesSymbolStage(c, p, line);
      OperatorTable(c, p, line);
    }
  }

  /**
    A pass raises an out-of-range error exactly when the input ends inside a
    token whose scanner looks past it.
   */
  lemma OutOfRangeExactlyWhenTruncated(c: seq<char>, p: nat, line: nat)
    requires p < |c|
    ensures Dispatch(c, p, line) == Halt(OutOfRange) <==> TruncatedAt(c, p)
  {
    if Dispatch(c, p, line) == Halt(OutOfRange) {
      OutOfRangeOnlyWhenTruncated(c, p, line);
    } else if CutShort(c, p, "//") || CutShort(c, p, "var ") {
      ShortCommentOrVar(c, p, line);
    } else if CutShort(c, p, "true ") {
      ShortLiteralWord(c, p, line, "true");
    } else if CutShort(c, p, "false ") {
      ShortLiteralWord(c, p, line, "false");
    } else if CutShort(c, p, "function ") || CutShort(c, p, "for ") {
      ShortKeyword(c, p, line, if CutShort(c, p, "for ") then "for " else "function ");
    } else if CutShort(c, p, "exclusive ") {
      ShortKeyword(c, p, line, "exclusive ");
    } else if CutShort(c, p, "if ") {
      ShortKeyword(c, p, line, "if ");
    } else if CutShort(c, p, "return ") {
      ShortKeyword(c, p, line, "return ");
    } else if TruncatedAt(c, p) {
      ShortOperatorOrNumber(c, p, line);
    }
  }

  // ---------------------------------------------------------------------
  // A whole scan
  // ---------------------------------------------------------------------

  /** The number of tokens of kind `k` in `ts`. */
  function CountOf(ts: seq<Token>, k: TokenType): (n: nat)
    ensures n <= |ts|
  {
    if ts == [] then 0 else (if ts[0].tokenType == k then 1 else 0) + CountOf(ts[1..], k)
  }

  /**
    A scan from inside the input ends at its end when it completes; otherwise
    it stops, without moving, at the first pass that halts, with that pass's
    outcome and the line counted so far.
   */
  lemma {:induction false} ScanStopsAtFirstHalt(c: seq<char>, p: nat, line: nat)
    requires p <= |c|
    decreases |c| - p
    ensures var r := Scan(c, p, line);
      r.outcome.Completed? ==> r.position == |c|
    ensures var r := Scan(c, p, line);
      !r.outcome.Completed? ==> p <= r.position < |c| && line <= r.line && Dispatch(c, r.position, r.line) == Halt(r.outcome)
  {
    if p < |c| {
      var s := Dispatch(c, p, line);
      if s.Advance? {
        ScanStopsAtFirstHalt(c, s.next, s.line);
        PassEmitsSourceText(c, p, line);
      }
    }
  }

  /** A completed scan advances the line counter once per LineEnding token it emits. */
  lemma {:induction false} ScanCountsLineEndings(c: seq<char>, p: nat, line: nat)
    decreases |c| - p
    ensures var r := Scan(c, p, line);
      r.outcome.Completed? ==> r.line == line + CountOf(r.outcome.tokens, LineEnding)
  {
    if p < |c| {
      var s := Dispatch(c, p, line);
      if s.Advance? {
        ScanCountsLineEndings(c, s.next, s.line);
        PassEmitsLexerKind(c, p, line);
        assert Scan(c, p, line) == Emit(s.token, Scan(c, s.next, s.line));
        EmitCountsLineEnding(s.token, Scan(c, s.next, s.line), line, s.line);
      }
    }
  }

  /** Putting a token in front of a completed run counts it when it is a LineEnding. */
  lemma EmitCountsLineEnding(t: Option<Token>, rest: LexRun, line: nat, l: nat)
    requires l == if t.Some? && t.value.tokenType == LineEnding then line + 1 else line
    requires rest.outcome.Completed? ==> rest.line == l + CountOf(rest.outcome.tokens, LineEnding)
    ensures var r := Emit(t, rest);
      r.outcome.Completed? ==> r.line == line + CountOf(r.outcome.tokens, LineEnding)
  {
    if t.Some? && rest.outcome.Completed? {
      assert ([t.value] + rest.outcome.tokens)[1..] == rest.outcome.tokens;
    }
  }

  /** A completed scan emits only lexer kinds, each with the default line 0. */
  lemma {:induction false} ScanEmitsLexerKinds(c: seq<char>, p: nat, line: nat)
    decreases |c| - p
    ensures var r := Scan(c, p, line);
      r.outcome.Completed? ==> forall i | 0 <= i < |r.outcome.tokens| ::
        LexerKind(r.outcome.tokens[i].tokenType) && r.outcome.tokens[i].isOnLine == 0
  {
    if p < |c| {
      var s := Dispatch(c, p, line);
      if s.Advance? {
        ScanEmitsLexerKinds(c, s.next, s.line);
        PassEmitsSourceText(c, p, line);
        PassEmitsLexerKind(c, p, line);
        assert Scan(c, p, line) == Emit(s.token, Scan(c, s.next, s.line));
        EmitLexerKinds(s.token, Scan(c, s.next, s.line));
      }
    }
  }

  /** Putting a lexer-kind token with line 0 in front of such tokens keeps them such. */
  lemma EmitLexerKinds(t: Option<Token>, rest: LexRun)
    requires t.Some? ==> LexerKind(t.value.tokenType) && t.value.isOnLine == 0
    requires rest.outcome.Completed? ==> forall i | 0 <= i < |rest.outcome.tokens| ::
      LexerKind(rest.outcome.tokens[i].tokenType) && rest.outcome.tokens[i].isOnLine == 0
    ensures var r := Emit(t, rest);
      r.outcome.Completed? ==> forall i | 0 <= i < |r.outcome.tokens| ::
        LexerKind(r.outcome.tokens[i].tokenType) && r.outcome.tokens[i].isOnLine == 0
  {
    if t.Some? && rest.outcome.Completed? {
      var ts := [t.value] + rest.outcome.tokens;
      assert forall i | 1 <= i < |ts| :: ts[i] == rest.outcome.tokens[i - 1];
    }
  }

  /**
    A scan from a cursor already at or past the end of the input completes
    at once with no tokens, leaving the cursor and the line counter: a
    lexer reused on a shorter input than the last one yields an empty list.
   */
  lemma ScanPastEndIsEmpty(c: seq<char>, p: nat, line: nat)
    requires |c| <= p
    ensures Scan(c, p, line) == LexRun(Completed([]), p, line)
  {
  }

  /**
    A scan that fails with an out-of-range read stops at a pass where the
    input ends inside a token the lexer looks past, so no `;` follows: the
    error can only come from the last statement.
   */
  lemma ScanOutOfRangeOnlyInLastStatement(c: seq<char>, p: nat, line: nat)
    requires p <= |c| && Scan(c, p, line).outcome == OutOfRange
    ensures var q := Scan(c, p, line).position;
      p <= q < |c| && TruncatedAt(c, q) && forall k | q <= k < |c| :: c[k] != ';'
  {
    ScanStopsAtFirstHalt(c, p, line);
    var r := Scan(c, p, line);
    OutOfRangeOnlyWhenTruncated(c, r.position, r.line);
    NoLineEndingAfterTruncation(c, r.position);
  }

  lemma NoLineEndingAfterTruncation(c: seq<char>, p: nat)
    requires p < |c| && TruncatedAt(c, p)
    ensures forall k | p <= k < |c| :: c[k] != ';'
  {
    forall k | p <= k < |c|
      ensures c[k] != ';'
    {
      if !(IsDigit(c[p]) && c[|c| - 1] == '.' && forall j | p <= j < |c| - 1 :: NumberChar(c, j)) {
        assert c[k] == c[p..][k - p];
      } else if k < |c| - 1 {
        assert NumberChar(c, k);
      }
    }
  }

  /**
    `var x = 1;`: the keyword, the identifier, and then the operator scanner
    spins on `=`, so a declaration with an initial value never finishes.
   */
  lemma DeclarationWithValueDiverges(line: nat)
    ensures Scan("var x = 1;", 0, line).outcome == Diverges
  {
    var c := "var x = 1;";
    assert StartsWith(c, 0, "var" + " ");
    KeywordLexed(c, 0, line, "var");
    NameThenEqualsDiverges(line);
    assert Scan(c, 3, line).outcome == Diverges;
  }

  /** From the name on, `x = 1;` lexes `x`, skips the space and spins on `=`. */
  lemma NameThenEqualsDiverges(line: nat)
    ensures Scan("var x = 1;", 4, line).outcome == Diverges
  {
    var c := "var x = 1;";
    PlainIdentifierLexed(c, 4, line);
    assert IdentifierEnd(c, 4) == 5 by {
      assert IdentifierEnd(c, 5) == 5;
    }
    SkippedExactlyWhenNoTokenStarts(c, 5, line);
    OnlyEqualsDiverges(c, 6, line);
    assert Scan(c, 6, line).outcome == Diverges;
    assert Scan(c, 5, line).outcome == Diverges;
  }
}
