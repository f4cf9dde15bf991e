/**
 * The terminator scan (Utils/Helpers.cs GetRightIndex): from a start
 * index, find the next ending character whose predecessor is not an
 * escape character.  The escape test looks back one character only.
 */
module Helpers {
  import opened Common

  /** sb[i] ends the scan: it is an ending and, when escapes are given, sb[i - 1] is not one. */
  predicate Qualifies(sb: seq<char>, i: nat, endings: seq<char>, escape: Option<seq<char>>)
    requires 1 <= i < |sb|
  {
    sb[i] in endings && !(escape.Some? && sb[i - 1] in escape.value)
  }

  /** The reference result of a scan starting at index `from` (one past the left index). */
  function RightIndex(sb: seq<char>, from: nat, endings: seq<char>, escape: Option<seq<char>>): (r: Result<nat, JsonError>)
    requires from >= 1
    ensures r.Ok? ==> from <= r.value < |sb| && Qualifies(sb, r.value, endings, escape)
    ensures r.Ok? ==> forall j :: from <= j < r.value ==> !Qualifies(sb, j, endings, escape)
    ensures r.Err? ==> r.error == NoEnding
    ensures r.Err? ==> forall j :: from <= j < |sb| ==> !Qualifies(sb, j, endings, escape)
    decreases |sb| - from
  {
    if from >= |sb| then Err(NoEnding)
    else if Qualifies(sb, from, endings, escape) then Ok(from)
    else RightIndex(sb, from + 1, endings, escape)
  }

  /**
   * Helpers.GetRightIndex: the loop with its two `continue` tests.
   * The result is the smallest qualifying index after leftIndex, or
   * NoEnding when there is none (also when leftIndex + 1 >= |sb|).
   */
  method GetRightIndex(sb: seq<char>, leftIndex: nat, endings: seq<char>, escape: Option<seq<char>>)
    returns (r: Result<nat, JsonError>)
    ensures r == RightIndex(sb, leftIndex + 1, endings, escape)
  {
    var i := leftIndex + 1;
    while i < |sb|
      invariant leftIndex + 1 <= i
      invariant i <= |sb| || i == leftIndex + 1
      invariant RightIndex(sb, i, endings, escape) == RightIndex(sb, leftIndex + 1, endings, escape)
      decreases |sb| - i
    {
      if sb[i] !in endings {
        i := i + 1;
        continue;
      }
      if escape.Some? && sb[i - 1] in escape.value {
        i := i + 1;
        continue;
      }
      return Ok(i);
    }
    return Err(NoEnding);
  }

  /** With a backslash escape, the quote in `"a\"b"` at index 3 is skipped. */
  lemma EscapedQuoteIsSkipped()
    ensures RightIndex(['"', 'a', '\\', '"', 'b', '"'], 1, ['"'], Some(['\\'])) == Ok(5)
  {
  }

  /**
   * The one-character lookback: in `"a\\"` the closing quote follows an
   * escaped backslash, yet it counts as escaped and the scan finds no end.
   */
  lemma EscapedBackslashHidesQuote()
    ensures RightIndex(['"', 'a', '\\', '\\', '"'], 1, ['"'], Some(['\\'])) == Err(NoEnding)
  {
  }
}
