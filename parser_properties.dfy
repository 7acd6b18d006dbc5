/**
  What the walk of src/Parser.cs does with each kind of token, how it
  captures a function body, and what it never does to what was registered
  before, stated against the definitions of module ParserSpec over
  arbitrary token lists.
 */
module ParserProperties {
  import opened Tokens
  import opened TypeReferences
  import opened ParserSpec

  // ---------------------------------------------------------------------
  // Declarations
  // ---------------------------------------------------------------------

  /**
    `var` followed by an identifier registers exactly one variable: named by
    the identifier, at the current depth, exclusive exactly when the token
    before `var` is `exclusive`, otherwise as created. Nothing else changes,
    and the walk goes on after the name.
   */
  lemma VariableDeclared(ts: seq<Token>, isInFunction: bool, i: nat, st: ParserState)
    requires 0 < i && i + 1 < |ts| && ts[i].tokenType == VariableDeclaration && ts[i + 1].tokenType == Identifier
    ensures var a := ActOn(ts, isInFunction, i, st);
      a.Next? && a.next == i + 2 && a.state.(variables := st.variables) == st
    ensures var a := ActOn(ts, isInFunction, i, st);
      |a.state.variables| == |st.variables| + 1 && a.state.variables[..|st.variables|] == st.variables
    ensures var v := ActOn(ts, isInFunction, i, st).state.variables[|st.variables|];
      v.name == ts[i + 1].value && v.depthLevel == st.depth && (v.isExclusive <==> ts[i - 1].tokenType == ExclusiveKeyword)
    ensures var v := ActOn(ts, isInFunction, i, st).state.variables[|st.variables|];
      v.parentScript == [] && v.value == [] && v.tokenType == Comment
  {
    var a := ActOn(ts, isInFunction, i, st);
    assert a.state.variables[..|st.variables|] == st.variables;
  }

  /**
    `function` followed by an identifier registers exactly one function,
    named by the identifier, `Exclusive` exactly when the token before is
    `exclusive` and `Public` otherwise, with no parameters and an empty body;
    the parser starts waiting for the body's `{`.
   */
  lemma FunctionDeclared(ts: seq<Token>, isInFunction: bool, i: nat, st: ParserState)
    requires 0 < i && i + 1 < |ts| && ts[i].tokenType == FunctionDeclaration && ts[i + 1].tokenType == Identifier
    ensures var a := ActOn(ts, isInFunction, i, st);
      a.Next? && a.next == i + 2 && a.state.(functions := st.functions, waitingForFunctionStart := st.waitingForFunctionStart) == st
    ensures var a := ActOn(ts, isInFunction, i, st);
      a.state.waitingForFunctionStart && |a.state.functions| == |st.functions| + 1 && a.state.functions[..|st.functions|] == st.functions
    ensures var f := ActOn(ts, isInFunction, i, st).state.functions[|st.functions|];
      f.name == ts[i + 1].value && (f.scope == Exclusive <==> ts[i - 1].tokenType == ExclusiveKeyword)
    ensures var f := ActOn(ts, isInFunction, i, st).state.functions[|st.functions|];
      f.parameters == [] && f.contents == [] && f.parentScript == []
  {
    var a := ActOn(ts, isInFunction, i, st);
    assert a.state.functions[..|st.functions|] == st.functions;
  }

  /**
    `var` or `function` not followed by an identifier is a diagnostic at the
    keyword's line, and registers nothing.
   */
  lemma UnnamedDeclarationIsError(ts: seq<Token>, isInFunction: bool, i: nat, st: ParserState)
    requires i + 1 < |ts| && ts[i + 1].tokenType != Identifier
    requires ts[i].tokenType == VariableDeclaration || ts[i].tokenType == FunctionDeclaration
    ensures var a := ActOn(ts, isInFunction, i, st);
      a.Stop? && a.state.variables == st.variables && a.state.functions == st.functions && a.state.depth == st.depth
    ensures var a := ActOn(ts, isInFunction, i, st);
      a.outcome == CompilerError(
        if ts[i].tokenType == VariableDeclaration then VariableNameMessage else FunctionNameMessage,
        ts[i].isOnLine)
  {
  }

  /**
    The unchecked neighbours of a declaration: a `var` or `function` that is
    the last token, or that is the first token though a name follows it,
    reads outside the list.
   */
  lemma DeclarationAtEitherEndOutOfRange(ts: seq<Token>, isInFunction: bool, i: nat, st: ParserState)
    requires i < |ts| && (ts[i].tokenType == VariableDeclaration || ts[i].tokenType == FunctionDeclaration)
    requires i + 1 == |ts| || (i == 0 && ts[1].tokenType == Identifier)
    ensures ActOn(ts, isInFunction, i, st).Stop? && ActOn(ts, isInFunction, i, st).outcome == OutOfRange
    ensures ActOn(ts, isInFunction, i, st).state.variables == st.variables
    ensures ActOn(ts, isInFunction, i, st).state.functions == st.functions
  {
  }

  // ---------------------------------------------------------------------
  // `use`, `external` and everything else
  // ---------------------------------------------------------------------

  /** `use` is a diagnostic inside a function body and otherwise changes nothing. */
  lemma UseChecked(ts: seq<Token>, isInFunction: bool, i: nat, st: ParserState)
    requires i < |ts| && ts[i].tokenType == UseKeyword
    ensures ActOn(ts, isInFunction, i, st) ==
      if isInFunction then Stop(CompilerError(UseInFunctionMessage, ts[i].isOnLine), st) else Next(i + 1, st)
  {
  }

  /**
    `external` must be followed by a `.` token: then nothing changes and the
    walk moves on by one token; otherwise it is a diagnostic, or an index out
    of range when it is the last token.
   */
  lemma ExternalChecked(ts: seq<Token>, isInFunction: bool, i: nat, st: ParserState)
    requires i < |ts| && ts[i].tokenType == ExternalKeyword
    ensures ActOn(ts, isInFunction, i, st) ==
      if i + 1 == |ts| then Stop(OutOfRange, st)
      else if ts[i + 1].tokenType == Period then Next(i + 1, st)
      else Stop(CompilerError(ExternalPeriodMessage, ts[i].isOnLine), st)
  {
  }

  /** The kinds the walk acts on. */
  predicate Handled(t: TokenType) {
    t == VariableDeclaration || t == FunctionDeclaration || t == UseKeyword || t == ExternalKeyword || t == CurlyBrace
  }

  /**
    Every other token, and a brace token whose text is neither brace,
    changes nothing; a `}` outside a captured body goes one level up.
   */
  lemma OtherTokensChangeNothing(ts: seq<Token>, isInFunction: bool, i: nat, st: ParserState)
    requires i < |ts|
    ensures !Handled(ts[i].tokenType) ==> ActOn(ts, isInFunction, i, st) == Next(i + 1, st)
    ensures ts[i].tokenType == CurlyBrace && ts[i].value != "{" && ts[i].value != "}" ==>
      ActOn(ts, isInFunction, i, st) == Next(i + 1, st)
    ensures ts[i].tokenType == CurlyBrace && ts[i].value == "}" ==>
      ActOn(ts, isInFunction, i, st) == Next(i + 1, st.(depth := st.depth - 1))
  {
  }

  // ---------------------------------------------------------------------
  // Capturing a function body
  // ---------------------------------------------------------------------

  /** How a token moves the brace depth of the inner loop, which looks only at its text. */
  function Delta(t: Token): int {
    if t.value == "{" then 1 else if t.value == "}" then -1 else 0
  }

  /** The net change of depth over `s`: opening minus closing braces. */
  function Net(s: seq<Token>): int {
    if s == [] then 0 else Delta(s[0]) + Net(s[1..])
  }

  /** The net change of depth over the tokens from `a` up to `k`. */
  function Span(ts: seq<Token>, a: nat, k: nat): int
    requires a <= k <= |ts|
  {
    Net(ts[a..k])
  }

  /** No prefix of the tokens from `b` up to `j` closes more braces than it opens. */
  predicate NeverBelow(ts: seq<Token>, b: nat, j: nat)
    requires b <= j <= |ts|
  {
    forall k | b <= k <= j :: Span(ts, b, k) >= 0
  }

  /**
    `j` is the brace that closes the `{` at `i`: a `}` before which the
    tokens from `i + 1` are balanced, with no prefix of them closing more
    braces than it opens.
   */
  predicate MatchingBrace(ts: seq<Token>, i: nat, j: nat) {
    i < j < |ts| && ts[j].value == "}" && Span(ts, i + 1, j) == 0 && NeverBelow(ts, i + 1, j)
  }

  /** A `{` has at most one matching brace. */
  lemma MatchingBraceUnique(ts: seq<Token>, i: nat, j1: nat, j2: nat)
    requires MatchingBrace(ts, i, j1) && MatchingBrace(ts, i, j2)
    ensures j1 == j2
  {
    if j1 < j2 {
      SpanSnoc(ts, i + 1, j1);
    } else if j2 < j1 {
      SpanSnoc(ts, i + 1, j2);
    }
  }

  /** Extending a range by one token adds that token's move. */
  lemma {:induction false} SpanSnoc(ts: seq<Token>, a: nat, j: nat)
    requires a <= j < |ts|
    decreases j - a
    ensures Span(ts, a, j + 1) == Span(ts, a, j) + Delta(ts[j])
  {
    if a < j {
      SpanCons(ts, a, j + 1);
      SpanCons(ts, a, j);
      SpanSnoc(ts, a + 1, j);
    } else {
      SpanCons(ts, a, j + 1);
      assert ts[a + 1..j + 1] == [] && ts[a..j] == [];
    }
  }

  /** Dropping the first token of a range takes away its move. */
  lemma SpanCons(ts: seq<Token>, a: nat, j: nat)
    requires a < j <= |ts|
    ensures Span(ts, a, j) == Delta(ts[a]) + Span(ts, a + 1, j)
  {
    assert ts[a..j][1..] == ts[a + 1..j];
  }

  lemma AppendToLastTwice(fs: seq<Function>, a: seq<Token>, b: seq<Token>)
    requires fs != []
    ensures AppendToLast(AppendToLast(fs, a), b) == AppendToLast(fs, a + b)
  {
    if a == [] {
      assert a + b == b;
    } else if b == [] {
      assert a + b == a;
    } else {
      var l := fs[|fs| - 1];
      assert (l.contents + a) + b == l.contents + (a + b);
    }
  }

  /**
    The inner loop, `d` levels above `start`, up to the `}` at `j` that brings
    it back: it ends there, with the tokens from `i` up to `j` added to the
    last function.
   */
  lemma {:induction false} CaptureToClose(ts: seq<Token>, i: nat, start: int, st: ParserState, j: nat, d: int)
    requires d >= 1 && st.depth == start + d
    requires i <= j < |ts| && ts[j].value == "}" && d + Span(ts, i, j) == 1
    requires forall k | i <= k <= j :: d + Span(ts, i, k) >= 1
    requires st.functions != [] || i == j
    decreases j - i
    ensures Capture(ts, i, start, st) == Captured(j, st.(depth := start, functions := AppendToLast(st.functions, ts[i..j])))
  {
    if i < j {
      SpanCons(ts, i, j);
      SpanCons(ts, i, i + 1);
      assert ts[i + 1..i + 1] == [];
      var d' := d + Delta(ts[i]);
      var st' := st.(depth := start + d', functions := AppendToLast(st.functions, [ts[i]]));
      var b := i + 1;
      forall k | b <= k <= j
        ensures d' + Span(ts, b, k) >= 1
      {
        SpanCons(ts, i, k);
      }
      CaptureToClose(ts, b, start, st', j, d');
      AppendToLastTwice(st.functions, [ts[i]], ts[b..j]);
      assert [ts[i]] + ts[b..j] == ts[i..j];
    }
  }

  /**
    A `{` with a matching `}` at `j` (and a declared function to receive its
    body, unless the body is empty) adds every token strictly between the
    two, in order, to the last declared function; those tokens are not acted
    on, since the walk resumes after the `}`. The depth ends where it was,
    the variables are untouched, and the parser stops waiting for a body.
   */
  lemma BraceCapturesBody(ts: seq<Token>, isInFunction: bool, i: nat, st: ParserState, j: nat)
    requires MatchingBrace(ts, i, j) && ts[i].tokenType == CurlyBrace && ts[i].value == "{"
    requires st.functions != [] || j == i + 1
    ensures ActOn(ts, isInFunction, i, st) == Next(j + 1, st.(
      functions := AppendToLast(st.functions, ts[i + 1..j]),
      waitingForFunctionStart := false,
      waitingForFunctionEnd := true))
  {
    var entered := st.(depth := st.depth + 1, waitingForFunctionStart := false, waitingForFunctionEnd := true);
    CaptureToClose(ts, i + 1, st.depth, entered, j, 1);
  }

  /**
    The inner loop when no `}` brings it back to `start`: it runs out of
    tokens (or finds no function to add to) and fails.
   */
  lemma {:induction false} CaptureUnclosed(ts: seq<Token>, i: nat, start: int, st: ParserState, d: int)
    requires i <= |ts| && d >= 1 && st.depth == start + d
    requires forall k | i <= k <= |ts| :: d + Span(ts, i, k) >= 1
    decreases |ts| - i
    ensures Capture(ts, i, start, st).CaptureFailed?
  {
    if i < |ts| {
      SpanCons(ts, i, i + 1);
      assert ts[i + 1..i + 1] == [];
    }
    if i < |ts| && st.functions != [] {
      var d' := d + Delta(ts[i]);
      var b := i + 1;
      forall k | b <= k <= |ts|
        ensures d' + Span(ts, b, k) >= 1
      {
        SpanCons(ts, i, k);
      }
      CaptureUnclosed(ts, b, start, st.(depth := start + d', functions := AppendToLast(st.functions, [ts[i]])), d');
    }
  }

  /** A `{` that nothing closes makes the inner loop read past the end of the list. */
  lemma UnclosedBraceOutOfRange(ts: seq<Token>, isInFunction: bool, i: nat, st: ParserState)
    requires i < |ts| && ts[i].tokenType == CurlyBrace && ts[i].value == "{"
    requires NeverBelow(ts, i + 1, |ts|)
    ensures ActOn(ts, isInFunction, i, st).Stop? && ActOn(ts, isInFunction, i, st).outcome == OutOfRange
  {
    var entered := st.(depth := st.depth + 1, waitingForFunctionStart := false, waitingForFunctionEnd := true);
    CaptureUnclosed(ts, i + 1, st.depth, entered, 1);
  }

  /** A nonempty body before any function is declared indexes an empty function list. */
  lemma BodyWithoutFunctionOutOfRange(ts: seq<Token>, isInFunction: bool, i: nat, st: ParserState)
    requires i + 1 < |ts| && ts[i].tokenType == CurlyBrace && ts[i].value == "{" && ts[i + 1].value != "}"
    requires st.functions == []
    ensures ActOn(ts, isInFunction, i, st).Stop? && ActOn(ts, isInFunction, i, st).outcome == OutOfRange
    ensures ActOn(ts, isInFunction, i, st).state.functions == []
  {
    var entered := st.(depth := st.depth + 1, waitingForFunctionStart := false, waitingForFunctionEnd := true);
    assert Capture(ts, i + 1, st.depth, entered).CaptureFailed?;
  }

  // ---------------------------------------------------------------------
  // What a walk never undoes
  // ---------------------------------------------------------------------

  /** `g` is `f` with possibly more tokens at the end of its body. */
  predicate GrowsBody(f: Function, g: Function) {
    g.(contents := f.contents) == f && f.contents <= g.contents
  }

  /**
    `b` only adds to `a`: variables are appended, functions are appended,
    and of those already registered only the last one's body may grow.
   */
  predicate Extends(a: ParserState, b: ParserState) {
    && a.variables <= b.variables
    && |a.functions| <= |b.functions|
    && (forall k | 0 <= k < |a.functions| - 1 :: b.functions[k] == a.functions[k])
    && (a.functions != [] ==> GrowsBody(a.functions[|a.functions| - 1], b.functions[|a.functions| - 1]))
  }

  lemma ExtendsTransitive(a: ParserState, b: ParserState, c: ParserState)
    requires Extends(a, b) && Extends(b, c)
    ensures Extends(a, c)
  {
    if a.functions != [] {
      var l := |a.functions| - 1;
      if |b.functions| > |a.functions| {
        assert c.functions[l] == b.functions[l];
      } else {
        assert a.functions[l].contents <= b.functions[l].contents <= c.functions[l].contents;
      }
    }
  }

  lemma AppendToLastExtends(st: ParserState, body: seq<Token>)
    requires st.functions != [] || body == []
    ensures Extends(st, st.(functions := AppendToLast(st.functions, body)))
  {
    if body != [] {
      var l := st.functions[|st.functions| - 1];
      assert l.contents <= l.contents + body;
    }
  }

  /** The inner loop goes on at `i`: it is not at the closing brace and a function is declared. */
  predicate CaptureGoesOn(ts: seq<Token>, i: nat, start: int, st: ParserState) {
    i < |ts| && !(ts[i].value == "}" && st.depth - 1 == start) && st.functions != []
  }

  /** The fields after the inner loop has taken the token at `i`. */
  function CaptureStepped(ts: seq<Token>, i: nat, st: ParserState): ParserState
    requires i < |ts| && st.functions != []
  {
    var deeper := if ts[i].value == "{" then st.depth + 1 else if ts[i].value == "}" then st.depth - 1 else st.depth;
    st.(depth := deeper, functions := AppendToLast(st.functions, [ts[i]]))
  }

  lemma CaptureStep(ts: seq<Token>, i: nat, start: int, st: ParserState)
    requires st.depth > start && CaptureGoesOn(ts, i, start, st)
    ensures CaptureStepped(ts, i, st).depth > start
    ensures Capture(ts, i, start, st) == Capture(ts, i + 1, start, CaptureStepped(ts, i, st))
    ensures Extends(st, CaptureStepped(ts, i, st))
  {
    var deeper := CaptureStepped(ts, i, st).depth;
    AppendToLastExtends(st.(depth := deeper), [ts[i]]);
  }

  lemma CaptureStopExtends(ts: seq<Token>, i: nat, start: int, st: ParserState)
    requires st.depth > start && !CaptureGoesOn(ts, i, start, st)
    ensures Extends(st, Capture(ts, i, start, st).state)
  {
    var r := Capture(ts, i, start, st);
    assert r.state.variables == st.variables && r.state.functions == st.functions;
  }

  lemma {:induction false} CaptureExtends(ts: seq<Token>, i: nat, start: int, st: ParserState)
    requires st.depth > start
    decreases |ts| - i
    ensures Extends(st, Capture(ts, i, start, st).state)
  {
    if CaptureGoesOn(ts, i, start, st) {
      var st' := CaptureStepped(ts, i, st);
      CaptureStep(ts, i, start, st);
      CaptureExtends(ts, i + 1, start, st');
      ExtendsTransitive(st, st', Capture(ts, i + 1, start, st').state);
    } else {
      CaptureStopExtends(ts, i, start, st);
    }
  }

  /** One round only adds to what is registered. */
  lemma ActOnExtends(ts: seq<Token>, isInFunction: bool, i: nat, st: ParserState)
    requires i < |ts|
    ensures Extends(st, ActOn(ts, isInFunction, i, st).state)
  {
    if ts[i].tokenType == CurlyBrace && ts[i].value == "{" {
      var entered := st.(depth := st.depth + 1, waitingForFunctionStart := false, waitingForFunctionEnd := true);
      CaptureExtends(ts, i + 1, st.depth, entered);
    } else if 0 < i && i + 1 < |ts| && ts[i + 1].tokenType == Identifier && ts[i].tokenType == FunctionDeclaration {
      FunctionDeclared(ts, isInFunction, i, st);
    } else if 0 < i && i + 1 < |ts| && ts[i + 1].tokenType == Identifier && ts[i].tokenType == VariableDeclaration {
      VariableDeclared(ts, isInFunction, i, st);
    } else {
      ActOnKeepsLists(ts, isInFunction, i, st);
    }
  }

  /** A round that neither opens a body nor completes a declaration leaves both lists as they are. */
  lemma ActOnKeepsLists(ts: seq<Token>, isInFunction: bool, i: nat, st: ParserState)
    requires i < |ts| && !(ts[i].tokenType == CurlyBrace && ts[i].value == "{")
    requires !(0 < i && i + 1 < |ts| && ts[i + 1].tokenType == Identifier && ts[i].tokenType == FunctionDeclaration)
    requires !(0 < i && i + 1 < |ts| && ts[i + 1].tokenType == Identifier && ts[i].tokenType == VariableDeclaration)
    ensures var a := ActOn(ts, isInFunction, i, st);
      a.state.variables == st.variables && a.state.functions == st.functions
  {
  }

  /**
    A walk only ever adds: variables and functions are appended, and of the
    functions registered before it only the last one's body may grow.
   */
  lemma {:induction false} WalkExtends(ts: seq<Token>, isInFunction: bool, i: nat, st: ParserState)
    decreases |ts| - i
    ensures Extends(st, Walk(ts, isInFunction, i, st).state)
  {
    if i < |ts| {
      var a := ActOn(ts, isInFunction, i, st);
      ActOnExtends(ts, isInFunction, i, st);
      if a.Next? {
        WalkExtends(ts, isInFunction, a.next, a.state);
        ExtendsTransitive(st, a.state, Walk(ts, isInFunction, a.next, a.state).state);
      }
    }
  }
}
