/**
  The records of src/ref/TypeReferences.cs that the parser builds. They are
  data-only classes with field initialisers; here they are values, and a
  string field the source leaves `null` starts as the empty string.
 */
module TypeReferences {
  import opened Tokens

  /** The scope of a function: public unless declared `exclusive`. */
  datatype AccessLevel = Public | Exclusive

  /** A declared variable; its value is held as text, tagged with a token kind. */
  datatype Variable = Variable(
    parentScript: string,
    isExclusive: bool,
    depthLevel: int,
    name: string,
    value: string,
    tokenType: TokenType)

  /** A declared function: its scope, name, parameters and body tokens. */
  datatype Function = Function(
    parentScript: string,
    scope: AccessLevel,
    name: string,
    parameters: seq<Parameter>,
    contents: seq<Token>)

  /** A parameter a function takes: the variable it binds. */
  datatype Parameter = Parameter(parameterVariable: Variable)

  /** The tokens passed for one parameter at a call. */
  datatype PassedParameter = PassedParameter(contents: seq<Token>)

  /**
    `new Variable()`: not exclusive, at depth 0, with no name or value yet and
    the token-kind default (the first kind, `Comment`).
   */
  function NewVariable(): (v: Variable)
    ensures !v.isExclusive && v.depthLevel == 0
    ensures v.name == [] && v.value == [] && v.tokenType == Comment
  {
    Variable([], false, 0, [], [], Comment)
  }

  /** `new Function()`: public, with no parameters and an empty body. */
  function NewFunction(): (f: Function)
    ensures f.scope == Public && f.parameters == [] && f.contents == []
    ensures f.name == []
  {
    Function([], Public, [], [], [])
  }

  /** `new Parameter(v)`: wraps exactly the variable it was given. */
  function NewParameter(paramVariable: Variable): (p: Parameter)
    ensures p.parameterVariable == paramVariable
  {
    Parameter(paramVariable)
  }

  /** `new PassedParameter()`: no tokens yet. */
  function NewPassedParameter(): (p: PassedParameter)
    ensures p.contents == []
  {
    PassedParameter([])
  }
}
