/**
  The lexer object of src/Tokenizer.cs. Its cursor `positionInInput` and its
  line counter `lineIndex` are fields that the dispatch loop and the
  `CheckFor*` helpers advance in place; neither is reset when
  InputToTokensList is called again on the same object.
 */
module Lexer {
  import opened Tokens
  import opened LexerSpec

  /** The tokens collected so far in front of what the rest of the scan yields; a failure discards them. */
  ghost function Prefixed(ts: seq<Token>, rest: LexRun): LexRun {
    if rest.outcome.Completed? then rest.(outcome := Completed(ts + rest.outcome.tokens)) else rest
  }

  /**
    One round of the dispatch loop keeps the scan's result: a halting pass is
    where the scan stops, and an advancing pass moves its token from the rest
    of the scan to the collected list.
   */
  lemma PrefixedStep(ts: seq<Token>, c: seq<char>, p: nat, line: nat)
    requires p < |c|
    ensures var s := Dispatch(c, p, line);
      if s.Halt? then Prefixed(ts, Scan(c, p, line)) == LexRun(s.outcome, p, line)
      else Prefixed(ts + Emitted(s.token), Scan(c, s.next, s.line)) == Prefixed(ts, Scan(c, p, line))
  {
    var s := Dispatch(c, p, line);
    assert Scan(c, p, line) == Pass(c, p, line);
    if s.Advance? {
      assert Scan(c, p, line) == Emit(s.token, Scan(c, s.next, s.line));
      if s.token.Some? {
        PrefixedEmit(ts, s.token.value, Scan(c, s.next, s.line));
      } else {
        assert ts + Emitted(s.token) == ts;
      }
    }
  }

  /** What one pass adds to the token list. */
  function Emitted(t: Option<Token>): seq<Token> {
    if t.Some? then [t.value] else []
  }

  /** Collecting a token is the same as emitting it in front of the rest of the scan. */
  lemma PrefixedEmit(ts: seq<Token>, t: Token, rest: LexRun)
    ensures Prefixed(ts + [t], rest) == Prefixed(ts, Emit(Some(t), rest))
  {
    if rest.outcome.Completed? {
      assert (ts + [t]) + rest.outcome.tokens == ts + ([t] + rest.outcome.tokens);
    }
  }

  class Tokenizer {
    /** The text being lexed (the source's `input` and its char array `inputChars`). */
    var input: string

    /** Current character in the input. */
    var positionInInput: nat

    /** Current line: one more for every `;` lexed. */
    var lineIndex: nat

    constructor ()
      ensures input == [] && positionInInput == 0 && lineIndex == 0
    {
      input := [];
      positionInInput := 0;
      lineIndex := 0;
    }

    /**
      Lexes `newInput` from the current `positionInInput` and `lineIndex`,
      as `Scan` specifies: the outcome, and the cursor and line counter left
      where the scan stopped.
     */
    method InputToTokensList(newInput: string) returns (outcome: LexOutcome)
      modifies this
      ensures input == newInput
      ensures LexRun(outcome, positionInInput, lineIndex) == Scan(newInput, old(positionInInput), old(lineIndex))
    {
      input := newInput;
      var tokensFromInput: seq<Token> := [];
      ghost var goal := Scan(newInput, positionInInput, lineIndex);
      while positionInInput < |input|
        invariant input == newInput
        invariant Prefixed(tokensFromInput, Scan(newInput, positionInInput, lineIndex)) == goal
        decreases |newInput| - positionInInput
      {
        ghost var position, line := positionInInput, lineIndex;
        var step := ReadToken();
        PrefixedStep(tokensFromInput, newInput, position, line);
        match step
        case Halt(o) =>
          return o;
        case Advance(t, _, _) =>
          tokensFromInput := tokensFromInput + Emitted(t);
      }
      outcome := Completed(tokensFromInput);
    }

    /**
      One pass of the dispatch loop of InputToTokensList: the `//`, `var `
      and quote branches, then the later stages.
     */
    method ReadToken() returns (step: Step)
      requires positionInInput < |input|
      modifies this`positionInInput, this`lineIndex
      ensures step == Dispatch(input, old(positionInInput), old(lineIndex))
      ensures step.Advance? ==> positionInInput == step.next && lineIndex == step.line
      ensures step.Halt? ==> positionInInput == old(positionInInput) && lineIndex == old(lineIndex)
    {
      var comment := ProbeWord(input, positionInInput, "//");
      if comment == ReadsPastEnd {
        return Halt(OutOfRange);
      }
      if comment == Matches {
        var t := CheckForComment();
        return Advance(Some(t), positionInInput, lineIndex);
      }
      var isVar := ProbeWord(input, positionInInput, "var ");
      if isVar == ReadsPastEnd {
        return Halt(OutOfRange);
      }
      if isVar == Matches {
        positionInInput := positionInInput + 3;
        return Advance(Some(LexerToken(VariableDeclaration, "var")), positionInInput, lineIndex);
      }
      if IsQuote(input[positionInInput]) {
        var t := CheckForString();
        return Advance(Some(t), positionInInput, lineIndex);
      }
      step := ReadLiteralToken();
    }

    /** The `true`, `false` and digit branches of the dispatch. */
    method ReadLiteralToken() returns (step: Step)
      requires positionInInput < |input|
      modifies this`positionInInput, this`lineIndex
      ensures step == DispatchLiteral(input, old(positionInInput), old(lineIndex))
      ensures step.Advance? ==> positionInInput == step.next && lineIndex == step.line
      ensures step.Halt? ==> positionInInput == old(positionInInput) && lineIndex == old(lineIndex)
    {
      var isTrue := ProbeLiteral(input, positionInInput, "true");
      if isTrue == ReadsPastEnd {
        return Halt(OutOfRange);
      }
      if isTrue == Matches {
        positionInInput := positionInInput + 4;
        return Advance(Some(LexerToken(BoolVariable, "true")), positionInInput, lineIndex);
      }
      var isFalse := ProbeLiteral(input, positionInInput, "false");
      if isFalse == ReadsPastEnd {
        return Halt(OutOfRange);
      }
      if isFalse == Matches {
        positionInInput := positionInInput + 5;
        return Advance(Some(LexerToken(BoolVariable, "false")), positionInInput, lineIndex);
      }
      if IsDigit(input[positionInInput]) {
        var r := CheckForIntOrFloat();
        if r.Raised? {
          return Halt(r.outcome);
        }
        return Advance(Some(r.token), positionInInput, lineIndex);
      }
      step := ReadKeywordToken();
    }

    /** The `function `, `exclusive ` and `if ` branches of the dispatch. */
    method ReadKeywordToken() returns (step: Step)
      requires positionInInput < |input|
      modifies this`positionInInput, this`lineIndex
      ensures step == DispatchKeyword(input, old(positionInInput), old(lineIndex))
      ensures step.Advance? ==> positionInInput == step.next && lineIndex == step.line
      ensures step.Halt? ==> positionInInput == old(positionInInput) && lineIndex == old(lineIndex)
    {
      var isFunction := ProbeWord(input, positionInInput, "function ");
      if isFunction == ReadsPastEnd {
        return Halt(OutOfRange);
      }
      if isFunction == Matches {
        positionInInput := positionInInput + 8;
        return Advance(Some(LexerToken(FunctionDeclaration, "function")), positionInInput, lineIndex);
      }
      var isExclusive := ProbeWord(input, positionInInput, "exclusive ");
      if isExclusive == ReadsPastEnd {
        return Halt(OutOfRange);
      }
      if isExclusive == Matches {
        positionInInput := positionInInput + 9;
        return Advance(Some(LexerToken(ExclusiveKeyword, "exclusive")), positionInInput, lineIndex);
      }
      var isIf := ProbeWord(input, positionInInput, "if ");
      if isIf == ReadsPastEnd {
        return Halt(OutOfRange);
      }
      if isIf == Matches {
        positionInInput := positionInInput + 2;
        return Advance(Some(LexerToken(IfKeyword, "if")), positionInInput, lineIndex);
      }
      step := ReadWordToken();
    }

    /** The `for ` and `return ` branches of the dispatch, then an identifier. */
    method ReadWordToken() returns (step: Step)
      requires positionInInput < |input|
      modifies this`positionInInput, this`lineIndex
      ensures step == DispatchWord(input, old(positionInInput), old(lineIndex))
      ensures step.Advance? ==> positionInInput == step.next && lineIndex == step.line
      ensures step.Halt? ==> positionInInput == old(positionInInput) && lineIndex == old(lineIndex)
    {
      var isFor := ProbeWord(input, positionInInput, "for ");
      if isFor == ReadsPastEnd {
        return Halt(OutOfRange);
      }
      if isFor == Matches {
        positionInInput := positionInInput + 3;
        return Advance(Some(LexerToken(ForKeyword, "for")), positionInInput, lineIndex);
      }
      var isReturn := ProbeWord(input, positionInInput, "return ");
      if isReturn == ReadsPastEnd {
        return Halt(OutOfRange);
      }
      if isReturn == Matches {
        positionInInput := positionInInput + 6;
        return Advance(Some(LexerToken(ReturnKeyword, "return")), positionInInput, lineIndex);
      }
      if IsLetter(input[positionInInput]) || input[positionInInput] == '_' {
        var t := CheckForIdentifier();
        return Advance(Some(t), positionInInput, lineIndex);
      }
      step := ReadSymbolToken();
    }

    /** The operator and `;` branches of the dispatch, and the skip of any other character. */
    method ReadSymbolToken() returns (step: Step)
      requires positionInInput < |input|
      modifies this`positionInInput, this`lineIndex
      ensures step == DispatchSymbol(input, old(positionInInput), old(lineIndex))
      ensures step.Advance? ==> positionInInput == step.next && lineIndex == step.line
      ensures step.Halt? ==> positionInInput == old(positionInInput) && lineIndex == old(lineIndex)
    {
      if IsOperatorStart(input[positionInInput]) {
        var r := CheckForOperatorAndEquals();
        if r.Raised? {
          return Halt(r.outcome);
        }
        return Advance(Some(r.token), positionInInput, lineIndex);
      }
      if input[positionInInput] == ';' {
        positionInInput := positionInInput + 1;
        lineIndex := lineIndex + 1;
        return Advance(Some(LexerToken(LineEnding, ";")), positionInInput, lineIndex);
      }
      // no token starts here (a space, a bracket, a comma, a period, ...): skip one character
      positionInInput := positionInInput + 1;
      step := Advance(None, positionInInput, lineIndex);
    }

    /** Collects the characters from the cursor up to the next `;` or the end of the input. */
    method CheckForComment() returns (newToken: Token)
      requires positionInInput < |input| && input[positionInInput] != ';'
      modifies this`positionInInput
      ensures positionInInput == CommentEnd(input, old(positionInInput))
      ensures newToken == LexerToken(Comment, input[old(positionInInput)..positionInInput])
    {
      var value: string := [];
      var position := positionInInput;
      while position < |input|
        invariant positionInInput <= position <= |input|
        invariant value == input[positionInInput..position]
        invariant CommentEnd(input, position) == CommentEnd(input, positionInInput)
      {
        var character := input[position];
        if character == ';' {
          break;
        }
        value := value + [character];
        position := position + 1;
      }
      positionInInput := positionInInput + |value|;
      newToken := LexerToken(Comment, value);
    }

    /** Collects the maximal run of letters, digits and `_` from the cursor. */
    method CheckForIdentifier() returns (newIdentifierToken: Token)
      requires positionInInput < |input| && IsIdentifierChar(input[positionInInput])
      modifies this`positionInInput
      ensures positionInInput == IdentifierEnd(input, old(positionInInput))
      ensures newIdentifierToken == LexerToken(Identifier, input[old(positionInInput)..positionInInput])
    {
      var value: string := [];
      var position := positionInInput;
      while position < |input|
        invariant positionInInput <= position <= |input|
        invariant value == input[positionInInput..position]
        invariant IdentifierEnd(input, position) == IdentifierEnd(input, positionInInput)
      {
        var character := input[position];
        if !IsIdentifierChar(character) {
          break;
        }
        value := value + [character];
        position := position + 1;
      }
      positionInInput := positionInInput + |value|;
      newIdentifierToken := LexerToken(Identifier, value);
    }

    /** Collects the opening quote and everything up to and including the next quote, or to the end of the input. */
    method CheckForString() returns (newIdentifierToken: Token)
      requires positionInInput < |input|
      modifies this`positionInInput
      ensures positionInInput == StringEnd(input, old(positionInInput) + 1)
      ensures newIdentifierToken == LexerToken(StringVariable, input[old(positionInInput)..positionInInput])
    {
      var value: string := [input[positionInInput]];
      var position := positionInInput + 1;
      while position < |input|
        invariant positionInInput < position <= |input|
        invariant value == input[positionInInput..position]
        invariant StringEnd(input, position) == StringEnd(input, positionInInput + 1)
      {
        var character := input[position];
        if IsQuote(character) {
          assert StringEnd(input, position) == position + 1;
          value := value + [character];
          position := position + 1;
          break;
        }
        value := value + [character];
        position := position + 1;
      }
      assert |value| == position - positionInInput;
      positionInInput := positionInInput + |value|;
      assert positionInInput == position;
      newIdentifierToken := LexerToken(StringVariable, value);
    }

    /** Collects a run of digits, taking a `.` only when a digit follows it. */
    method CheckForIntOrFloat() returns (r: Lexed)
      requires positionInInput < |input| && IsDigit(input[positionInInput])
      modifies this`positionInInput
      ensures match ScanNumber(input, old(positionInInput), false, Comment)
              case Number(e, kind) =>
                r == Lexed(LexerToken(kind, input[old(positionInInput)..e])) && positionInInput == e
              case NumberOutOfRange =>
                r == Raised(OutOfRange) && positionInInput == old(positionInInput)
    {
      var isFloat := false;
      var kind := Comment;
      var value: string := [];
      var position := positionInInput;
      while position < |input|
        invariant positionInInput <= position <= |input|
        invariant value == input[positionInInput..position]
        invariant ScanNumber(input, position, isFloat, kind) == ScanNumber(input, positionInInput, false, Comment)
      {
        var character := input[position];
        if character == '.' && position + 1 == |input| {
          // the lookahead at the next character reads past the end
          return Raised(OutOfRange);
        }
        if character == '.' && IsDigit(input[position + 1]) {
          isFloat := true;
          kind := FloatVariable;
        } else if !IsDigit(character) && !isFloat {
          kind := IntVariable;
          break;
        } else if !IsDigit(character) && isFloat {
          break;
        }
        value := value + [character];
        position := position + 1;
      }
      positionInInput := positionInInput + |value|;
      r := Lexed(LexerToken(kind, value));
    }

    /**
      Lexes the operator at the cursor. The source's loop here runs its body
      once for every character it handles; for any other character (the
      dispatch sends it `=`) the body neither advances nor breaks, which is
      reported as `Diverges`.
     */
    method CheckForOperatorAndEquals() returns (r: Lexed)
      requires positionInInput < |input|
      modifies this`positionInInput
      ensures r == ScanOperator(input, old(positionInInput), lineIndex)
      ensures positionInInput == old(positionInInput) + (if r.Lexed? then |r.token.value| else 0)
    {
      var position := positionInInput;
      var character := input[position];
      if character == '+' || character == '-' || character == '*' || character == '/' {
        r := Lexed(LexerToken(MathematicalOperator, [character]));
      } else if character == '>' || character == '<' {
        if position + 1 == |input| {
          return Raised(OutOfRange);
        }
        if input[position + 1] == '=' {
          r := Lexed(LexerToken(ComparisonOperator, [character, input[position + 1]]));
        } else {
          r := Lexed(LexerToken(ComparisonOperator, [character]));
        }
      } else if character == '!' || character == '&' || character == '|' {
        if character == '!' && position + 1 == |input| {
          return Raised(OutOfRange);
        }
        if character == '!' && input[position + 1] != '=' {
          return Raised(CompilerError(ExclamationMessage, lineIndex));
        } else if character == '!' && input[position + 1] == '=' {
          r := Lexed(LexerToken(ComparisonOperator, [character, input[position + 1]]));
        } else {
          r := Lexed(LexerToken(ComparisonOperator, [character]));
        }
      } else {
        return Raised(Diverges);
      }
      positionInInput := positionInInput + |r.token.value|;
    }
  }
}
