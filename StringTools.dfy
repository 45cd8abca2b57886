/** `TStringTools::commonPart`: the longest common prefix of two strings. */
module StringTools {
  import opened PhpStrings

  /** The character as `commonPart` compares it: lower-cased unless the comparison is case-sensitive. */
  function Fold(c: char, cs: bool): char
  {
    if cs then c else LowerChar(c)
  }

  /** The length of the longest common prefix, comparing with `Fold`. */
  function CommonLength(a: string, b: string, cs: bool): (n: nat)
    ensures n <= |a| && n <= |b|
    ensures forall j :: 0 <= j < n ==> Fold(a[j], cs) == Fold(b[j], cs)
    ensures n == |a| || n == |b| || Fold(a[n], cs) != Fold(b[n], cs)
  {
    if |a| == 0 || |b| == 0 || Fold(a[0], cs) != Fold(b[0], cs) then 0
    else 1 + CommonLength(a[1..], b[1..], cs)
  }

  /** A string shares all of itself with itself. */
  lemma CommonLengthSelf(s: string, cs: bool)
    ensures CommonLength(s, s, cs) == |s|
  {
  }

  /** Case-sensitively, the common part is a prefix of both strings. */
  lemma CommonLengthPrefix(a: string, b: string)
    ensures a[..CommonLength(a, b, true)] <= b
  {
  }

  /**
   * `commonPart($str1, $str2, $cs)`: the characters of `str1` up to the
   * first position where the two strings differ or one ends.
   */
  method CommonPart(str1: string, str2: string, cs: bool) returns (r: string)
    ensures r == str1[..CommonLength(str1, str2, cs)]
  {
    var i := 0;
    while i < |str1| && i < |str2|
      invariant 0 <= i <= |str1| && i <= |str2|
      invariant forall j :: 0 <= j < i ==> Fold(str1[j], cs) == Fold(str2[j], cs)
    {
      var chr1 := str1[i];
      var chr2 := str2[i];
      if !cs {
        chr1 := LowerChar(chr1);
        chr2 := LowerChar(chr2);
      }
      if chr1 != chr2 {
        break;
      }
      i := i + 1;
    }
    CommonLengthUnique(str1, str2, cs, i);
    r := str1[..i];
  }

  /** The common length is the only length with a matching prefix that cannot be extended. */
  lemma {:induction false} CommonLengthUnique(a: string, b: string, cs: bool, n: nat)
    requires n <= |a| && n <= |b|
    requires forall j :: 0 <= j < n ==> Fold(a[j], cs) == Fold(b[j], cs)
    requires n == |a| || n == |b| || Fold(a[n], cs) != Fold(b[n], cs)
    ensures CommonLength(a, b, cs) == n
    decreases n
  {
    if n > 0 {
      assert Fold(a[0], cs) == Fold(b[0], cs);
      CommonLengthUnique(a[1..], b[1..], cs, n - 1);
    }
  }
}
