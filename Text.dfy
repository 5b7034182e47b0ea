/**
 * The Kotlin string operations the browser relies on, over `seq<char>`.
 */
module Text {

  /** `Char.lowercaseChar()` restricted to ASCII: 'A'..'Z' map to 'a'..'z', every other character is kept. */
  function LowerChar(c: char): (r: char)
    ensures 'A' <= c <= 'Z' ==> 'a' <= r <= 'z' && r as int - c as int == 32
    ensures !('A' <= c <= 'Z') ==> r == c
  {
    if 'A' <= c <= 'Z' then (c as int + 32) as char else c
  }

  /** `String.toLowerCase(Locale.ROOT)`, character by character. */
  function ToLowerRoot(s: string): (r: string)
    ensures |r| == |s|
    ensures forall i :: 0 <= i < |s| ==> r[i] == LowerChar(s[i])
  {
    seq(|s|, i requires 0 <= i < |s| => LowerChar(s[i]))
  }

  /** A string that lower-casing leaves as it is. */
  predicate IsLowerCase(s: string) {
    forall i :: 0 <= i < |s| ==> !('A' <= s[i] <= 'Z')
  }

  lemma ToLowerRootIsLowerCase(s: string)
    ensures IsLowerCase(ToLowerRoot(s))
    ensures IsLowerCase(s) <==> ToLowerRoot(s) == s
  {
    if IsLowerCase(s) {
      assert forall i :: 0 <= i < |s| ==> ToLowerRoot(s)[i] == s[i];
    }
  }

  /** Lower-casing twice is lower-casing once. */
  lemma ToLowerRootIdempotent(s: string)
    ensures ToLowerRoot(ToLowerRoot(s)) == ToLowerRoot(s)
  {
    ToLowerRootIsLowerCase(s);
    ToLowerRootIsLowerCase(ToLowerRoot(s));
  }

  /** Lower-casing commutes with taking a slice. */
  lemma ToLowerRootSlice(s: string, i: int, j: int)
    requires 0 <= i <= j <= |s|
    ensures ToLowerRoot(s[i..j]) == ToLowerRoot(s)[i..j]
  {
    var a, b := ToLowerRoot(s[i..j]), ToLowerRoot(s)[i..j];
    forall k | 0 <= k < |a| ensures a[k] == b[k] {
      assert s[i..j][k] == s[i + k];
    }
  }

  /** `sub` occurs in `s` starting at index `i`. */
  predicate OccursAt(s: string, sub: string, i: int) {
    0 <= i && i + |sub| <= |s| && s[i..i + |sub|] == sub
  }

  /** Kotlin's `String.contains(other)`: some index at which `sub` occurs. */
  function Contains(s: string, sub: string): (b: bool)
    ensures b <==> exists i :: OccursAt(s, sub, i)
    decreases |s|
  {
    if sub <= s then
      assert OccursAt(s, sub, 0);
      true
    else if s == [] then
      false
    else
      var b := Contains(s[1..], sub);
      assert forall i :: 0 < i ==> (OccursAt(s, sub, i) <==> OccursAt(s[1..], sub, i - 1));
      assert b ==> exists i :: OccursAt(s, sub, i) by {
        if b {
          var j :| OccursAt(s[1..], sub, j);
          assert OccursAt(s, sub, j + 1);
        }
      }
      assert (exists i :: OccursAt(s, sub, i)) ==> b by {
        if exists i :: OccursAt(s, sub, i) {
          var i :| OccursAt(s, sub, i);
          assert i != 0;
          assert OccursAt(s[1..], sub, i - 1);
        }
      }
      b
  }

  /** Kotlin's `String.startsWith(prefix)`. */
  predicate StartsWith(s: string, prefix: string): (b: bool)
    ensures b <==> |prefix| <= |s| && s[..|prefix|] == prefix
  {
    prefix <= s
  }

  /**
   * The characters Kotlin's `Char.isWhitespace()` accepts on the JVM: the
   * controls U+0009..U+000D and U+001C..U+001F, and the Unicode space,
   * line and paragraph separators.
   */
  predicate IsWhitespace(c: char) {
    var n := c as int;
    (0x09 <= n <= 0x0D) || (0x1C <= n <= 0x20) || n == 0xA0 || n == 0x1680
    || (0x2000 <= n <= 0x200A) || n == 0x2028 || n == 0x2029 || n == 0x202F
    || n == 0x205F || n == 0x3000
  }

  /** Kotlin's `CharSequence.isBlank()`: empty, or whitespace only. */
  predicate IsBlank(s: string): (b: bool)
    ensures b <==> forall c :: c in s ==> IsWhitespace(c)
    ensures s == [] ==> b
  {
    forall i :: 0 <= i < |s| ==> IsWhitespace(s[i])
  }
}
