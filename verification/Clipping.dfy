/** Clipping a text to a number of tokens, for any token counter. */
module Clipping {

  /** Counts the tokens of a text; nothing is assumed of it but where stated. */
  type TextCounter = string -> nat

  const ELLIPSIS := "..."

  /** What is left by keeping `k` characters. */
  function Cut(text: string, k: nat): string
    requires k <= |text|
  {
    text[..k] + ELLIPSIS
  }

  /** The number of characters a bisection between `low` and `high` keeps. */
  function Bisect(count: TextCounter, text: string, limit: int, low: nat, high: nat): (k: nat)
    requires low <= high <= |text|
    ensures low <= k <= high
    decreases high - low
  {
    if low == high then low
    else
      var middle := (low + high + 1) / 2;
      if count(Cut(text, middle)) <= limit then Bisect(count, text, limit, middle, high)
      else Bisect(count, text, limit, low, middle - 1)
  }

  function Clip(count: TextCounter, text: string, limit: int): string
  {
    if limit <= 0 then ""
    else if count(text) <= limit then text
    else if count(ELLIPSIS) > limit then ""
    else Cut(text, Bisect(count, text, limit, 0, |text|))
  }

  method ClipText(count: TextCounter, text: string, limit: int) returns (clipped: string)
    ensures clipped == Clip(count, text, limit)
  {
    if limit <= 0 { return ""; }
    if count(text) <= limit { return text; }
    if count(ELLIPSIS) > limit { return ""; }
    var low, high := 0, |text|;
    while low < high
      invariant 0 <= low <= high <= |text|
      invariant Bisect(count, text, limit, low, high) == Bisect(count, text, limit, 0, |text|)
    {
      var middle := (low + high + 1) / 2;
      if count(Cut(text, middle)) <= limit { low := middle; } else { high := middle - 1; }
    }
    return Cut(text, low);
  }

  lemma {:induction false} BisectFits(count: TextCounter, text: string, limit: int, low: nat, high: nat)
    requires low <= high <= |text| && count(Cut(text, low)) <= limit
    ensures count(Cut(text, Bisect(count, text, limit, low, high))) <= limit
    ensures Bisect(count, text, limit, low, high) == high
            || count(Cut(text, Bisect(count, text, limit, low, high) + 1)) > limit
    decreases high - low
  {
    if low != high {
      var middle := (low + high + 1) / 2;
      if count(Cut(text, middle)) <= limit {
        BisectFits(count, text, limit, middle, high);
      } else {
        BisectFits(count, text, limit, low, middle - 1);
      }
    }
  }

  /** The cut is tight: keeping one more character would not fit. */
  predicate IsTightCut(count: TextCounter, text: string, limit: int, k: nat)
  {
    k <= |text| && count(text[..k] + "...") <= limit && (k < |text| ==> count(text[..k + 1] + "...") > limit)
  }

  /** A clipped text fits. It is the text itself when that fits; otherwise a tight cut of it, or
      nothing when not even the ellipsis fits. The counter need not be monotone. */
  lemma ClipFits(count: TextCounter, text: string, limit: nat)
    requires count("") == 0
    ensures count(Clip(count, text, limit)) <= limit
    ensures limit > 0 && count(text) <= limit ==> Clip(count, text, limit) == text
    ensures count(text) > limit && count("...") > limit ==> Clip(count, text, limit) == ""
    ensures limit > 0 && count(text) > limit && count("...") <= limit ==>
              exists k: nat :: IsTightCut(count, text, limit, k) && Clip(count, text, limit) == text[..k] + "..."
  {
    if limit > 0 && count(text) > limit && count(ELLIPSIS) <= limit {
      assert Cut(text, 0) == ELLIPSIS;
      BisectFits(count, text, limit, 0, |text|);
      var k := Bisect(count, text, limit, 0, |text|);
      assert k < |text| ==> count(Cut(text, k + 1)) > limit;
      assert IsTightCut(count, text, limit, k);
    }
  }
}
