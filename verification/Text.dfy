/** String facts shared by the whole model: the byte-wise order of Go's `<` on strings, substrings, and SHA-1. */
module Text {

  /** Go's `a < b` on strings: the order of the first difference, a proper prefix being smaller. */
  predicate Less(a: string, b: string) {
    if b == "" then false
    else if a == "" then true
    else if a[0] != b[0] then a[0] < b[0]
    else Less(a[1..], b[1..])
  }

  lemma {:induction false} LessAsymmetric(a: string, b: string)
    ensures !(Less(a, b) && Less(b, a))
  {
    if a != "" && b != "" {
      LessAsymmetric(a[1..], b[1..]);
    }
  }

  lemma {:induction false} LessTotal(a: string, b: string)
    requires !Less(a, b) && !Less(b, a)
    ensures a == b
  {
    if a != "" && b != "" {
      LessTotal(a[1..], b[1..]);
      assert a == [a[0]] + a[1..] && b == [b[0]] + b[1..];
    }
  }

  /** "Not greater" is transitive too, which is what sortedness chains on. */
  lemma NotLessTransitive(a: string, b: string, c: string)
    requires !Less(b, a) && !Less(c, b)
    ensures !Less(c, a)
  {
  }

  /** The texts agree up to some place, and there `a` has the smaller character. */
  ghost predicate FirstDifference(a: string, b: string) {
    exists i: nat :: i < |a| && i < |b| && a[..i] == b[..i] && a[i] < b[i]
  }

  lemma DifferenceFromHead(a: string, b: string)
    requires a != "" && b != ""
    ensures FirstDifference(a, b) <==> a[0] < b[0] || (a[0] == b[0] && FirstDifference(a[1..], b[1..]))
  {
    var a', b' := a[1..], b[1..];
    assert a == [a[0]] + a' && b == [b[0]] + b';
    if i: nat :| i < |a| && i < |b| && a[..i] == b[..i] && a[i] < b[i] {
      if i > 0 {
        assert a[..i][0] == b[..i][0];
        assert a'[..i - 1] == a[..i][1..] && b'[..i - 1] == b[..i][1..];
        assert a'[i - 1] < b'[i - 1];
      }
    }
    if a[0] < b[0] {
      assert a[..0] == b[..0];
    }
    if a[0] == b[0] && FirstDifference(a', b') {
      var i: nat :| i < |a'| && i < |b'| && a'[..i] == b'[..i] && a'[i] < b'[i];
      assert a[..i + 1] == [a[0]] + a'[..i] && b[..i + 1] == [b[0]] + b'[..i];
      assert a[i + 1] < b[i + 1];
    }
  }

  /** What the order means: a proper prefix, or smaller at the first difference. */
  lemma {:induction false} LessMeans(a: string, b: string)
    ensures Less(a, b) <==> a < b || FirstDifference(a, b)
  {
    if a != "" && b != "" {
      DifferenceFromHead(a, b);
      if a[0] == b[0] {
        LessMeans(a[1..], b[1..]);
        assert a == [a[0]] + a[1..] && b == [b[0]] + b[1..];
      }
    }
  }

  /** Ascending: equal, a prefix, or smaller at the first difference. */
  ghost predicate AtMost(a: string, b: string) {
    a <= b || FirstDifference(a, b)
  }

  lemma AtMostMeans(a: string, b: string)
    ensures AtMost(a, b) <==> !Less(b, a)
  {
    LessMeans(a, b);
    LessAsymmetric(a, b);
    if !Less(a, b) && !Less(b, a) {
      LessTotal(a, b);
    }
    if a <= b && !(a < b) {
      assert a == b;
    }
  }

  /** `strings.Contains`. */
  predicate Contains(s: string, sub: string) {
    exists i | 0 <= i <= |s| - |sub| :: sub <= s[i..]
  }

  predicate IsHexChar(c: char) {
    '0' <= c <= '9' || 'a' <= c <= 'f'
  }

  predicate IsHex(s: string) {
    s != "" && forall i | 0 <= i < |s| :: IsHexChar(s[i])
  }

  /** A non-empty lower-case hexadecimal string. */
  type HexDigest = s: string | IsHex(s) witness "0"

  /** The hexadecimal SHA-1 of a string, left uninterpreted: all that is known is that it is a function to hexadecimal text. */
  const Sha1Hex: string -> HexDigest
}
