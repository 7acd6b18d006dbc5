/**
  UtilityTools.TokenListToString of src/utils/TokenListToString.cs: the
  values of a token list, concatenated in list order. `Concatenation` is the
  specification the `foreach` loop of the method is proved against; the
  lemmas state what it means.
 */
module UtilityTools {
  import opened Tokens

  /** The values of `ts` one after the other; the last token's value comes last. */
  function Concatenation(ts: seq<Token>): string
  {
    if ts == [] then "" else Concatenation(ts[..|ts| - 1]) + ts[|ts| - 1].value
  }

  /** The sum of the lengths of the values of `ts`, counted from the front. */
  function TotalLength(ts: seq<Token>): nat
  {
    if ts == [] then 0 else |ts[0].value| + TotalLength(ts[1..])
  }

  /** Starts from the empty string and adds each token's value in turn. */
  method TokenListToString(tokenList: seq<Token>) returns (stringToReturn: string)
    ensures stringToReturn == Concatenation(tokenList)
    ensures tokenList == [] ==> stringToReturn == ""
    ensures |stringToReturn| == TotalLength(tokenList)
  {
    stringToReturn := "";
    var k := 0;
    while k < |tokenList|
      invariant k <= |tokenList|
      invariant stringToReturn == Concatenation(tokenList[..k])
    {
      assert tokenList[..k + 1][..k] == tokenList[..k];
      stringToReturn := stringToReturn + tokenList[k].value;
      k := k + 1;
    }
    assert tokenList[..k] == tokenList;
    ConcatenationLength(tokenList);
  }

  /** Converting two lists one after the other is converting their concatenation. */
  lemma {:induction false} ConcatenationAppend(a: seq<Token>, b: seq<Token>)
    ensures Concatenation(a + b) == Concatenation(a) + Concatenation(b)
    decreases |b|
  {
    if b == [] {
      assert a + b == a;
    } else {
      var c := b[..|b| - 1];
      assert (a + b)[..|a + b| - 1] == a + c;
      ConcatenationAppend(a, c);
    }
  }

  /** The first token's value comes first, followed by the rest in order. */
  lemma ConcatenationFront(ts: seq<Token>)
    requires ts != []
    ensures Concatenation(ts) == ts[0].value + Concatenation(ts[1..])
  {
    assert ts == [ts[0]] + ts[1..];
    ConcatenationAppend([ts[0]], ts[1..]);
    assert [ts[0]][..0] == [];
  }

  /** The length of the string is the sum of the lengths of the values. */
  lemma {:induction false} ConcatenationLength(ts: seq<Token>)
    ensures |Concatenation(ts)| == TotalLength(ts)
    decreases |ts|
  {
    if ts != [] {
      ConcatenationFront(ts);
      ConcatenationLength(ts[1..]);
    }
  }

  /**
    In list order: the value of token `i` sits in the string right after the
    values of the tokens before it.
   */
  lemma ValueInPlace(ts: seq<Token>, i: nat)
    requires i < |ts|
    ensures var at := TotalLength(ts[..i]);
      at + |ts[i].value| <= |Concatenation(ts)| && Concatenation(ts)[at..at + |ts[i].value|] == ts[i].value
  {
    assert ts == ts[..i] + ([ts[i]] + ts[i + 1..]);
    ConcatenationAppend(ts[..i], [ts[i]] + ts[i + 1..]);
    ConcatenationFront([ts[i]] + ts[i + 1..]);
    assert ([ts[i]] + ts[i + 1..])[1..] == ts[i + 1..];
    ConcatenationLength(ts[..i]);
  }

  /** The kinds and lines of the tokens play no part: only their values do. */
  lemma {:induction false} ConcatenationIgnoresTypes(a: seq<Token>, b: seq<Token>)
    requires |a| == |b|
    requires forall i :: 0 <= i < |a| ==> a[i].value == b[i].value
    ensures Concatenation(a) == Concatenation(b)
    decreases |a|
  {
    if a != [] {
      var n := |a| - 1;
      assert forall i :: 0 <= i < n ==> a[..n][i].value == b[..n][i].value;
      ConcatenationIgnoresTypes(a[..n], b[..n]);
    }
  }
}
