/**
 * Java's `String.length()`: the number of UTF-16 code units, not of
 * characters. A character of the Basic Multilingual Plane takes one unit; a
 * supplementary character (code point 0x10000 and above) takes a surrogate
 * pair, so two.
 */
module JavaStrings {

  /** The first code point outside the Basic Multilingual Plane. */
  const SupplementaryBase: int := 0x1_0000

  /** The number of UTF-16 code units that encode `c`. */
  function Utf16Units(c: char): (n: nat)
    ensures n == 1 <==> (c as int) < SupplementaryBase
    ensures n == 2 <==> (c as int) >= SupplementaryBase
  {
    if (c as int) < SupplementaryBase then 1 else 2
  }

  /** `s.length()`: the UTF-16 code units of every character, added up. */
  function Utf16Length(s: string): (n: nat)
    ensures |s| <= n <= 2 * |s|
    decreases |s|
  {
    if |s| == 0 then 0 else Utf16Units(s[0]) + Utf16Length(s[1..])
  }

  /** A string's Java length is its character count exactly when it has no supplementary character. */
  lemma {:induction false} Utf16LengthIsSize(s: string)
    ensures Utf16Length(s) == |s| <==> forall k | 0 <= k < |s| :: (s[k] as int) < SupplementaryBase
    decreases |s|
  {
    if |s| > 0 {
      Utf16LengthIsSize(s[1..]);
      assert forall k | 1 <= k < |s| :: s[k] == s[1..][k - 1];
    }
  }

  /** Java length is additive over concatenation. */
  lemma {:induction false} Utf16LengthAppend(a: string, b: string)
    ensures Utf16Length(a + b) == Utf16Length(a) + Utf16Length(b)
    decreases |a|
  {
    if |a| == 0 {
      assert a + b == b;
    } else {
      Utf16LengthAppend(a[1..], b);
      assert (a + b)[0] == a[0] && (a + b)[1..] == a[1..] + b;
    }
  }

  /** A one-character string is one unit long in the Basic Multilingual Plane and two units long outside it. */
  lemma SingleCharLength(c: char)
    ensures Utf16Length([c]) == Utf16Units(c)
  {
    assert [c][1..] == [];
  }

  /** A pair of supplementary characters (two emoji, say) is four units long, so not a valid 1-to-3 gram. */
  lemma SupplementaryPairLength(c: char, d: char)
    requires (c as int) >= SupplementaryBase && (d as int) >= SupplementaryBase
    ensures Utf16Length([c, d]) == 4
  {
    assert [c, d][1..] == [d];
    SingleCharLength(d);
  }
}
