/**
  The declaration and body-capture walk of src/Parser.cs, as pure
  functions: `ActOn` is one round of the `for` loop of ActOnTokens at
  cursor `i`, `Capture` its inner brace-counting loop, and `Walk` the whole
  loop. A diagnostic is fatal and ends the walk; so does an index outside
  the token list or the function list, which the source does not check.
 */
module ParserSpec {
  import opened Tokens
  import opened TypeReferences

  /** The fields of a Parser object. */
  datatype ParserState = ParserState(
    variables: seq<Variable>,
    functions: seq<Function>,
    depth: int,
    waitingForFunctionStart: bool,
    waitingForFunctionEnd: bool)

  /** A fresh Parser: nothing declared, at depth 0, waiting for nothing. */
  function InitialState(): (st: ParserState)
    ensures st.variables == [] && st.functions == [] && st.depth == 0
    ensures !st.waitingForFunctionStart && !st.waitingForFunctionEnd
  {
    ParserState([], [], 0, false, false)
  }

  /** How a walk ends: at the end of the list, with a diagnostic, or with an index out of range. */
  datatype ParseOutcome = Finished | CompilerError(message: string, line: int) | OutOfRange

  const VariableNameMessage: string := "Variable must be named immediately after it is declared"
  const FunctionNameMessage: string := "Function must be named immediately after it is declared"
  const UseInFunctionMessage: string := "Cannot use 'use' keyword inside of a function"
  const ExternalPeriodMessage: string := "external keyword must be followed by a period"

  /** A diagnostic, if the outcome is one, carries one of the four messages the walk raises. */
  predicate KnownMessage(o: ParseOutcome) {
    o.CompilerError? ==>
      o.message in {VariableNameMessage, FunctionNameMessage, UseInFunctionMessage, ExternalPeriodMessage}
  }

  /** One round of the loop: continue at `next`, or stop. */
  datatype Action = Next(next: nat, state: ParserState) | Stop(outcome: ParseOutcome, state: ParserState)

  /** The end of the inner loop: the index of the closing brace, or an index out of range. */
  datatype CaptureResult = Captured(close: nat, state: ParserState) | CaptureFailed(state: ParserState)

  /** The outcome of a walk and the parser's fields when it ends. */
  datatype WalkRun = WalkRun(outcome: ParseOutcome, state: ParserState)

  /** `fs` with `body` added to the contents of its last function. */
  function AppendToLast(fs: seq<Function>, body: seq<Token>): (r: seq<Function>)
    requires fs != [] || body == []
    ensures |r| == |fs|
    ensures body == [] ==> r == fs
    ensures fs != [] ==> r[..|fs| - 1] == fs[..|fs| - 1]
    ensures fs != [] ==> r[|fs| - 1].contents == fs[|fs| - 1].contents + body
    ensures fs != [] ==> r[|fs| - 1].(contents := fs[|fs| - 1].contents) == fs[|fs| - 1]
  {
    if body == [] then fs
    else fs[..|fs| - 1] + [fs[|fs| - 1].(contents := fs[|fs| - 1].contents + body)]
  }

  /**
    The inner loop at index `i` while the depth is above `start`, the depth
    before the opening brace: a `{` goes one deeper, a `}` one shallower, and
    every token but the `}` that returns to `start` is added to the last
    declared function.
   */
  function Capture(ts: seq<Token>, i: nat, start: int, st: ParserState): (r: CaptureResult)
    requires st.depth > start
    decreases |ts| - i, 1
    ensures r.Captured? ==> i <= r.close < |ts| && r.state.depth == start
  {
    if i >= |ts| then CaptureFailed(st)
    else if ts[i].value == "{" then AddToLast(ts, i, start, st.(depth := st.depth + 1))
    else if ts[i].value == "}" then
      if st.depth - 1 == start then Captured(i, st.(depth := start))
      else AddToLast(ts, i, start, st.(depth := st.depth - 1))
    else AddToLast(ts, i, start, st)
  }

  /** `usableFunctions[usableFunctions.Count - 1].contents.Add(tokenList[i])`, then the next index. */
  function AddToLast(ts: seq<Token>, i: nat, start: int, st: ParserState): (r: CaptureResult)
    requires i < |ts| && st.depth > start
    decreases |ts| - i, 0
    ensures r.Captured? ==> i < r.close < |ts| && r.state.depth == start
  {
    if st.functions == [] then CaptureFailed(st)
    else Capture(ts, i + 1, start, st.(functions := AppendToLast(st.functions, [ts[i]])))
  }

  /** The preceding token is `exclusive` (reading index `i - 1`, which must exist). */
  predicate AfterExclusive(ts: seq<Token>, i: nat)
    requires 0 < i <= |ts|
  {
    ts[i - 1].tokenType == ExclusiveKeyword
  }

  /** One round of the loop of ActOnTokens at index `i`. */
  function ActOn(ts: seq<Token>, isInFunction: bool, i: nat, st: ParserState): (a: Action)
    requires i < |ts|
    ensures a.Next? ==> i < a.next <= |ts|
    ensures a.Stop? ==> KnownMessage(a.outcome) && a.outcome != Finished
  {
    var t := ts[i];
    match t.tokenType
    case VariableDeclaration =>
      if i + 1 == |ts| then Stop(OutOfRange, st)
      else if ts[i + 1].tokenType != Identifier then Stop(CompilerError(VariableNameMessage, t.isOnLine), st)
      else if i == 0 then Stop(OutOfRange, st)
      else
        var v := NewVariable().(isExclusive := AfterExclusive(ts, i), name := ts[i + 1].value, depthLevel := st.depth);
        Next(i + 2, st.(variables := st.variables + [v]))
    case FunctionDeclaration =>
      var waiting := st.(waitingForFunctionStart := true);
      if i + 1 == |ts| then Stop(OutOfRange, waiting)
      else if ts[i + 1].tokenType != Identifier then Stop(CompilerError(FunctionNameMessage, t.isOnLine), waiting)
      else if i == 0 then Stop(OutOfRange, waiting)
      else
        var f := NewFunction().(scope := if AfterExclusive(ts, i) then Exclusive else Public, name := ts[i + 1].value);
        Next(i + 2, waiting.(functions := waiting.functions + [f]))
    case UseKeyword =>
      if isInFunction then Stop(CompilerError(UseInFunctionMessage, t.isOnLine), st) else Next(i + 1, st)
    case ExternalKeyword =>
      if i + 1 == |ts| then Stop(OutOfRange, st)
      else if ts[i + 1].tokenType != Period then Stop(CompilerError(ExternalPeriodMessage, t.isOnLine), st)
      else Next(i + 1, st)
    case CurlyBrace =>
      if t.value == "{" then
        var entered := st.(depth := st.depth + 1, waitingForFunctionStart := false, waitingForFunctionEnd := true);
        var r := Capture(ts, i + 1, st.depth, entered);
        if r.Captured? then Next(r.close + 1, r.state) else Stop(OutOfRange, r.state)
      else if t.value == "}" then Next(i + 1, st.(depth := st.depth - 1))
      else Next(i + 1, st)
    case _ => Next(i + 1, st)
  }

  /** ActOnTokens from index `i` to the end of the list or the first stop. */
  function Walk(ts: seq<Token>, isInFunction: bool, i: nat, st: ParserState): (r: WalkRun)
    decreases |ts| - i, 1
    ensures KnownMessage(r.outcome)
    ensures i < |ts| && r.outcome == Finished ==> ActOn(ts, isInFunction, i, st).Next?
  {
    if i >= |ts| then WalkRun(Finished, st) else Act(ts, isInFunction, i, st)
  }

  /** One round at `i` followed by the rest of the walk. */
  function Act(ts: seq<Token>, isInFunction: bool, i: nat, st: ParserState): (r: WalkRun)
    requires i < |ts|
    decreases |ts| - i, 0
    ensures KnownMessage(r.outcome)
    ensures r.outcome == Finished ==> ActOn(ts, isInFunction, i, st).Next?
  {
    var a := ActOn(ts, isInFunction, i, st);
    if a.Stop? then WalkRun(a.outcome, a.state) else Walk(ts, isInFunction, a.next, a.state)
  }
}
