/**
  What the walk of src/Parser.cs makes of a token list the lexer of
  src/Tokenizer.cs completed. The lexer emits no braces, no `use`, no
  `external` and no `.`, so such a walk never captures a function body and
  never changes the depth: it can only register variables and functions
  with empty bodies, or stop at a misplaced declaration.
 */
module LexedProgram {
  import opened Tokens
  import opened TypeReferences
  import opened LexerSpec
  import opened LexerProperties
  import opened ParserSpec

  /** Every token has a kind the lexer emits. */
  predicate AllLexerKinds(ts: seq<Token>) {
    forall k | 0 <= k < |ts| :: LexerKind(ts[k].tokenType)
  }

  /**
    `st` is `base` with, at most, functions with empty bodies registered after
    the existing ones: same depth, same function-end flag, earlier functions
    untouched.
   */
  predicate OnlyEmptyFunctionsAdded(base: ParserState, st: ParserState) {
    && st.depth == base.depth
    && st.waitingForFunctionEnd == base.waitingForFunctionEnd
    && |base.functions| <= |st.functions|
    && st.functions[..|base.functions|] == base.functions
    && forall j | |base.functions| <= j < |st.functions| :: st.functions[j].contents == []
  }

  /** The diagnostics a declaration raises. */
  predicate DeclarationDiagnostic(o: ParseOutcome) {
    o.CompilerError? ==> o.message == VariableNameMessage || o.message == FunctionNameMessage
  }

  /** A `var` or `function` token as the first or the last token of `ts`. */
  predicate MisplacedDeclaration(ts: seq<Token>) {
    exists k | 0 <= k < |ts| ::
      (ts[k].tokenType == VariableDeclaration || ts[k].tokenType == FunctionDeclaration) && (k == 0 || k + 1 == |ts|)
  }

  /**
    On a lexer kind, a round reads outside the list only at a declaration
    that is the first or the last token: no brace, `use` or `external` can
    stand there.
   */
  lemma OutOfRangeOnLexerKind(ts: seq<Token>, isInFunction: bool, i: nat, st: ParserState)
    requires i < |ts| && LexerKind(ts[i].tokenType)
    ensures var a := ActOn(ts, isInFunction, i, st);
      a.Stop? && a.outcome.OutOfRange? ==>
        (ts[i].tokenType == VariableDeclaration || ts[i].tokenType == FunctionDeclaration) && (i == 0 || i + 1 == |ts|)
  {
  }

  /** One round on a lexer kind keeps the property, and raises only a declaration diagnostic. */
  lemma ActOnLexerKind(ts: seq<Token>, isInFunction: bool, i: nat, base: ParserState, st: ParserState)
    requires i < |ts| && LexerKind(ts[i].tokenType)
    requires OnlyEmptyFunctionsAdded(base, st)
    ensures var a := ActOn(ts, isInFunction, i, st);
      OnlyEmptyFunctionsAdded(base, a.state) && (a.Stop? ==> DeclarationDiagnostic(a.outcome))
  {
    var a := ActOn(ts, isInFunction, i, st);
    if ts[i].tokenType == FunctionDeclaration && a.Next? {
      var fs := a.state.functions;
      assert fs == st.functions + [fs[|fs| - 1]] && fs[|fs| - 1].contents == [];
      assert fs[..|base.functions|] == st.functions[..|base.functions|];
    } else {
      assert a.state.functions == st.functions && a.state.depth == st.depth;
    }
  }

  /** A walk over lexer kinds keeps the property and raises only declaration diagnostics. */
  lemma {:induction false} WalkLexerKinds(ts: seq<Token>, isInFunction: bool, i: nat, base: ParserState, st: ParserState)
    requires AllLexerKinds(ts)
    requires OnlyEmptyFunctionsAdded(base, st)
    ensures var r := Walk(ts, isInFunction, i, st);
      OnlyEmptyFunctionsAdded(base, r.state) && DeclarationDiagnostic(r.outcome)
    ensures Walk(ts, isInFunction, i, st).outcome.OutOfRange? ==> MisplacedDeclaration(ts)
    decreases |ts| - i
  {
    if i < |ts| {
      ActOnLexerKind(ts, isInFunction, i, base, st);
      OutOfRangeOnLexerKind(ts, isInFunction, i, st);
      var a := ActOn(ts, isInFunction, i, st);
      if a.Next? {
        WalkLexerKinds(ts, isInFunction, a.next, base, a.state);
      } else if a.outcome.OutOfRange? {
        assert (ts[i].tokenType == VariableDeclaration || ts[i].tokenType == FunctionDeclaration) && (i == 0 || i + 1 == |ts|);
      }
    }
  }

  /**
    Parsing what a completed scan produced, from any parser state: the depth
    and the function-end flag are those it started with, the functions
    registered before are untouched, every function it registers has an
    empty body, a diagnostic can only be about an unnamed declaration, and
    an out-of-range read only happens when a declaration is the first or the
    last token.
   */
  lemma ParsingLexedInput(c: seq<char>, line: nat, isInFunction: bool, st: ParserState)
    requires Scan(c, 0, line).outcome.Completed?
    ensures var r := Walk(Scan(c, 0, line).outcome.tokens, isInFunction, 0, st);
      && r.state.depth == st.depth
      && r.state.waitingForFunctionEnd == st.waitingForFunctionEnd
      && |st.functions| <= |r.state.functions|
      && r.state.functions[..|st.functions|] == st.functions
      && (forall j | |st.functions| <= j < |r.state.functions| :: r.state.functions[j].contents == [])
      && (r.outcome.CompilerError? ==> r.outcome.message in {VariableNameMessage, FunctionNameMessage})
      && (r.outcome.OutOfRange? ==> MisplacedDeclaration(Scan(c, 0, line).outcome.tokens))
  {
    ScanEmitsLexerKinds(c, 0, line);
    assert st.functions[..|st.functions|] == st.functions;
    WalkLexerKinds(Scan(c, 0, line).outcome.tokens, isInFunction, 0, st, st);
  }
}
