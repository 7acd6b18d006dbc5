/**
  The Parser object of src/Parser.cs. Its lists of usable variables and
  functions, its depth counter and its two waiting flags are fields that
  ActOnTokens updates in place while a cursor walks the token list.
 */
module Parsing {
  import opened Tokens
  import opened TypeReferences
  import opened ParserSpec

  class Parser {
    var usableVariables: seq<Variable>
    var usableFunctions: seq<Function>

    /** How many braces deep the walk is: 0 at the top level. */
    var currentDepthLevel: int

    var waitingForFunctionStart: bool
    var waitingForFunctionEnd: bool

    /** The fields, as the value the walk specification works on. */
    function State(): ParserState
      reads this
    {
      ParserState(usableVariables, usableFunctions, currentDepthLevel, waitingForFunctionStart, waitingForFunctionEnd)
    }

    constructor ()
      ensures State() == InitialState()
    {
      usableVariables := [];
      usableFunctions := [];
      currentDepthLevel := 0;
      waitingForFunctionStart := false;
      waitingForFunctionEnd := false;
    }

    /**
      Registers the declarations of `tokenList` and captures function bodies,
      as `Walk` specifies: the outcome, and the fields as the walk leaves them.
     */
    method ActOnTokens(tokenList: seq<Token>, isInFunction: bool) returns (outcome: ParseOutcome)
      modifies this
      ensures WalkRun(outcome, State()) == Walk(tokenList, isInFunction, 0, old(State()))
    {
      ghost var goal := Walk(tokenList, isInFunction, 0, State());
      var i := 0;
      while i < |tokenList|
        invariant Walk(tokenList, isInFunction, i, State()) == goal
        decreases |tokenList| - i
      {
        assert Walk(tokenList, isInFunction, i, State()) == Act(tokenList, isInFunction, i, State());
        var next, stop := ActOnToken(tokenList, isInFunction, i);
        if stop.Some? {
          return stop.value;
        }
        i := next;
      }
      outcome := Finished;
    }

    /**
      One round of the loop of ActOnTokens, the `switch` on the type of the
      token at `i`, as `ActOn` specifies: the fields it leaves, and either the
      index the loop goes on from or the outcome it stops with.
     */
    method ActOnToken(tokenList: seq<Token>, isInFunction: bool, i: nat) returns (next: nat, stop: Option<ParseOutcome>)
      requires i < |tokenList|
      modifies this
      ensures var a := ActOn(tokenList, isInFunction, i, old(State()));
        State() == a.state && (a.Stop? <==> stop.Some?) && (a.Stop? ==> stop.value == a.outcome) && (a.Next? ==> next == a.next)
    {
      var token := tokenList[i];
      match token.tokenType {
        case VariableDeclaration =>
          next, stop := DeclareVariable(tokenList, i);
          return;
        case FunctionDeclaration =>
          next, stop := DeclareFunction(tokenList, i);
          return;
        case UseKeyword =>
          if isInFunction {
            return i, Some(CompilerError(UseInFunctionMessage, token.isOnLine));
          }
        case ExternalKeyword =>
          if i + 1 == |tokenList| {
            return i, Some(OutOfRange);
          }
          if tokenList[i + 1].tokenType != Period {
            return i, Some(CompilerError(ExternalPeriodMessage, token.isOnLine));
          }
        case CurlyBrace =>
          if token.value == "{" {
            var startingDepthLevel := currentDepthLevel;
            currentDepthLevel := currentDepthLevel + 1;
            waitingForFunctionStart := false;
            waitingForFunctionEnd := true;
            var closed, close := CaptureBody(tokenList, i + 1, startingDepthLevel);
            if !closed {
              return i, Some(OutOfRange);
            }
            return close + 1, None;
          } else if token.value == "}" {
            currentDepthLevel := currentDepthLevel - 1;
          }
        case _ =>
      }
      return i + 1, None;
    }

    /**
      The `VariableDeclaration` case of the `switch`: registers a variable
      named by the following identifier, exclusive when `exclusive` precedes.
     */
    method DeclareVariable(tokenList: seq<Token>, i: nat) returns (next: nat, stop: Option<ParseOutcome>)
      requires i < |tokenList| && tokenList[i].tokenType == VariableDeclaration
      modifies this`usableVariables
      ensures var a := ActOn(tokenList, false, i, old(State()));
        State() == a.state && (a.Stop? <==> stop.Some?) && (a.Stop? ==> stop.value == a.outcome) && (a.Next? ==> next == a.next)
    {
      var token := tokenList[i];
      if i + 1 == |tokenList| {
        return i, Some(OutOfRange);
      }
      if tokenList[i + 1].tokenType != Identifier {
        return i, Some(CompilerError(VariableNameMessage, token.isOnLine));
      }
      if i == 0 {
        return i, Some(OutOfRange);
      }
      var newVariable := NewVariable();
      if tokenList[i - 1].tokenType == ExclusiveKeyword {
        newVariable := newVariable.(isExclusive := true);
      }
      newVariable := newVariable.(name := tokenList[i + 1].value, depthLevel := currentDepthLevel);
      usableVariables := usableVariables + [newVariable];
      return i + 2, None;
    }

    /**
      The `FunctionDeclaration` case of the `switch`: sets the wait for a
      body and registers a function named by the following identifier,
      exclusive when `exclusive` precedes.
     */
    method DeclareFunction(tokenList: seq<Token>, i: nat) returns (next: nat, stop: Option<ParseOutcome>)
      requires i < |tokenList| && tokenList[i].tokenType == FunctionDeclaration
      modifies this`usableFunctions, this`waitingForFunctionStart
      ensures var a := ActOn(tokenList, false, i, old(State()));
        State() == a.state && (a.Stop? <==> stop.Some?) && (a.Stop? ==> stop.value == a.outcome) && (a.Next? ==> next == a.next)
    {
      var token := tokenList[i];
      var newFunction := NewFunction();
      waitingForFunctionStart := true;
      if i + 1 == |tokenList| {
        return i, Some(OutOfRange);
      }
      if tokenList[i + 1].tokenType != Identifier {
        return i, Some(CompilerError(FunctionNameMessage, token.isOnLine));
      }
      if i == 0 {
        return i, Some(OutOfRange);
      }
      if tokenList[i - 1].tokenType == ExclusiveKeyword {
        newFunction := newFunction.(scope := Exclusive);
      }
      newFunction := newFunction.(name := tokenList[i + 1].value);
      usableFunctions := usableFunctions + [newFunction];
      return i + 2, None;
    }

    /**
      The inner loop of the `{` case: from index `first`, adds every token to
      the last declared function while tracking the brace depth, up to the
      `}` that brings the depth back to `startingDepthLevel`. It reports
      whether that `}` was found, and where; if not, an index ran out of range.
     */
    method CaptureBody(tokenList: seq<Token>, first: nat, startingDepthLevel: int) returns (closed: bool, close: nat)
      requires currentDepthLevel > startingDepthLevel
      modifies this`usableFunctions, this`currentDepthLevel
      ensures var r := Capture(tokenList, first, startingDepthLevel, old(State()));
        (closed <==> r.Captured?) && State() == r.state && (closed ==> close == r.close)
    {
      ghost var result := Capture(tokenList, first, startingDepthLevel, State());
      var i := first;
      while currentDepthLevel != startingDepthLevel
        invariant currentDepthLevel > startingDepthLevel
        invariant Capture(tokenList, i, startingDepthLevel, State()) == result
        decreases |tokenList| - i
      {
        if i >= |tokenList| {
          return false, i;
        }
        if tokenList[i].value == "{" {
          currentDepthLevel := currentDepthLevel + 1;
        } else if tokenList[i].value == "}" {
          currentDepthLevel := currentDepthLevel - 1;
          if currentDepthLevel == startingDepthLevel {
            break;
          }
        }
        if usableFunctions == [] {
          return false, i;
        }
        var last := usableFunctions[|usableFunctions| - 1];
        usableFunctions := usableFunctions[..|usableFunctions| - 1] + [last.(contents := last.contents + [tokenList[i]])];
        i := i + 1;
      }
      return true, i;
    }

    /** Walks the body of `functionToRun` as the body of a function. */
    method RunFunction(functionToRun: Function) returns (outcome: ParseOutcome)
      modifies this
      ensures WalkRun(outcome, State()) == Walk(functionToRun.contents, true, 0, old(State()))
    {
      outcome := ActOnTokens(functionToRun.contents, true);
    }
  }
}
