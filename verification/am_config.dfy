/**
 * The sort key of the settings dialog (src/gui_config/custom/am_config.py,
 * sort_negative_first). Setting names are integers; the key interleaves them
 * by absolute value: 0, -1, 1, -2, 2, ...
 */
module AmConfig {

  function Abs(n: int): nat {
    if n < 0 then -n else n
  }

  /** Negative names get the even keys 2|n|, the others the odd keys 2|n| + 1. */
  function SortNegativeFirst(n: int): (k: int)
    ensures k >= 1
    ensures k % 2 == 0 <==> n < 0
    ensures n < 0 ==> k == 2 * Abs(n)
    ensures n >= 0 ==> k == 2 * Abs(n) + 1
  {
    if n < 0 then Abs(n) * 2 else Abs(n) * 2 + 1
  }

  /** The name that has a given key: the key is a bijection from the integers onto the positive integers. */
  function NameOfKey(k: int): (n: int)
    requires k >= 1
    ensures SortNegativeFirst(n) == k
  {
    if k % 2 == 0 then -(k / 2) else (k - 1) / 2
  }

  /** Reading a name back from its key gives the name. */
  lemma NameOfKeyRoundTrip(n: int)
    ensures NameOfKey(SortNegativeFirst(n)) == n
  {
  }

  /** Distinct names have distinct keys, so sorting by the key has no ties. */
  lemma SortKeyInjective(a: int, b: int)
    requires SortNegativeFirst(a) == SortNegativeFirst(b)
    ensures a == b
  {
    NameOfKeyRoundTrip(a);
    NameOfKeyRoundTrip(b);
  }

  /** A negative name sorts immediately before its positive counterpart. */
  lemma NegativeJustBefore(n: int)
    requires n > 0
    ensures SortNegativeFirst(-n) + 1 == SortNegativeFirst(n)
  {
  }

  /** Keys grow with the absolute value: the order is not "all negatives first". */
  lemma SortKeyByMagnitude(a: int, b: int)
    requires Abs(a) < Abs(b)
    ensures SortNegativeFirst(a) < SortNegativeFirst(b)
  {
  }

  /** Among negative names, -1 comes before -2. */
  lemma SortKeyNegatives(a: int, b: int)
    requires a < 0 && b < 0
    ensures SortNegativeFirst(a) < SortNegativeFirst(b) <==> b < a
  {
  }

  /** Among non-negative names the order is ascending. */
  lemma SortKeyNonNegatives(a: int, b: int)
    requires a >= 0 && b >= 0
    ensures SortNegativeFirst(a) < SortNegativeFirst(b) <==> a < b
  {
  }
}
