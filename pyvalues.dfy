/**
 * The Python values the tenant edit guard compares: None, an int read from
 * an INT column, and the str a dropdown holds. Only what `if x and x != y`
 * needs is modelled: truthiness, `str()` of an int, and `!=`.
 */
module PyValues {
  import opened Common

  datatype Value = NoneValue | IntValue(i: int) | StrValue(s: string)

  /** Python's truth test: None, 0 and "" are false, everything else true. */
  predicate Truthy(v: Value) {
    match v
    case NoneValue => false
    case IntValue(i) => i != 0
    case StrValue(s) => s != ""
  }

  /**
   * `a != b`: values of different types are never equal (a str is never
   * equal to an int), and values of the same type compare by content.
   */
  function NotEqual(a: Value, b: Value): (r: bool)
    ensures a.StrValue? && !b.StrValue? ==> r
    ensures a.IntValue? && b.IntValue? ==> (r <==> a.i != b.i)
    ensures a.StrValue? && b.StrValue? ==> (r <==> a.s != b.s)
    ensures a.NoneValue? && b.NoneValue? ==> !r
  {
    match (a, b)
    case (NoneValue, NoneValue) => false
    case (IntValue(i), IntValue(j)) => i != j
    case (StrValue(s), StrValue(t)) => s != t
    case _ => true
  }

  /** The decimal digits of a natural number, most significant first. */
  function Digits(n: nat): (s: string)
    ensures |s| > 0
    ensures forall k :: 0 <= k < |s| ==> '0' <= s[k] <= '9'
    decreases n
  {
    var last := ['0' + (n % 10) as char];
    if n < 10 then last else Digits(n / 10) + last
  }

  /** `str(n)` for an int: its digits, after a minus sign when negative; never empty. */
  function IntText(n: int): (s: string)
    ensures |s| > 0
    ensures s[0] == '-' <==> n < 0
    ensures forall k :: 0 < k < |s| ==> '0' <= s[k] <= '9'
  {
    if n < 0 then "-" + Digits(-n) else Digits(n)
  }
}
