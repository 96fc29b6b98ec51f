/** Texts as JavaScript sees them: sequences of UTF-16 code units, ordered code unit by code unit. */
module Texts {
  type CodeUnit = n: nat | n < 0x1_0000

  type Text = seq<CodeUnit>

  /** `left < right ? -1 : left > right ? 1 : 0` */
  function CompareText(left: Text, right: Text): (order: int)
    ensures -1 <= order <= 1
  {
    if left == [] && right == [] then 0
    else if left == [] then -1
    else if right == [] then 1
    else if left[0] < right[0] then -1
    else if left[0] > right[0] then 1
    else CompareText(left[1..], right[1..])
  }

  /** Only equal texts compare as equal, and swapping the sides flips the sign. */
  lemma {:induction false} CompareIsAntisymmetric(left: Text, right: Text)
    ensures CompareText(left, right) == 0 <==> left == right
    ensures CompareText(left, right) == -CompareText(right, left)
  {
    if left != [] && right != [] && left[0] == right[0] {
      CompareIsAntisymmetric(left[1..], right[1..]);
      assert left == [left[0]] + left[1..] && right == [right[0]] + right[1..];
    }
  }

  lemma {:induction false} CompareIsTransitive(a: Text, b: Text, c: Text)
    requires CompareText(a, b) <= 0 && CompareText(b, c) <= 0
    ensures CompareText(a, c) <= 0
  {
    if a != [] && b != [] && c != [] && a[0] == b[0] == c[0] {
      CompareIsTransitive(a[1..], b[1..], c[1..]);
    }
  }

  predicate IsHighSurrogate(u: CodeUnit) {
    0xD800 <= u <= 0xDBFF
  }

  predicate IsLowSurrogate(u: CodeUnit) {
    0xDC00 <= u <= 0xDFFF
  }

  /** A text from a literal. */
  function Ascii(s: string): (text: Text)
    requires forall i :: 0 <= i < |s| ==> s[i] < 128 as char
    ensures |text| == |s| && forall i :: 0 <= i < |s| ==> text[i] == s[i] as int
  {
    seq(|s|, i requires 0 <= i < |s| => s[i] as int)
  }
}
