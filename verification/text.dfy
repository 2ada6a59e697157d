/**
  Small helpers shared by the gateway model: an Option type, PHP's notion of a
  "falsy" string, and ASCII lower-casing as PHP 8's `strtolower` performs it.
 */
module Text {

  /** A value that may be absent (PHP `null`, `false`, or an unset key). */
  datatype Option<+T> = None | Some(value: T)

  /** PHP's truthiness test on a string: only "" and "0" are falsy. */
  predicate Falsy(s: string) {
    s == "" || s == "0"
  }

  predicate IsUpper(c: char) {
    'A' <= c <= 'Z'
  }

  /** ASCII lower-casing of one character; every other character is kept. */
  function LowerChar(c: char): char {
    if IsUpper(c) then (c as int + 32) as char else c
  }

  /** `strtolower`: ASCII lower-casing of every character of `s`. Letters
      A-Z become the letter at the same alphabet position in a-z, every other
      character is kept, and no upper-case letter remains. */
  function Lower(s: string): (r: string)
    ensures |r| == |s|
    ensures forall i :: 0 <= i < |s| && !IsUpper(s[i]) ==> r[i] == s[i]
    ensures forall i :: 0 <= i < |s| && IsUpper(s[i]) ==>
      'a' <= r[i] <= 'z' && r[i] as int - 'a' as int == s[i] as int - 'A' as int
    ensures forall i :: 0 <= i < |r| ==> !IsUpper(r[i])
  {
    seq(|s|, i requires 0 <= i < |s| => LowerChar(s[i]))
  }

  /** Lower-casing twice is lower-casing once. */
  lemma LowerIdempotent(s: string)
    ensures Lower(Lower(s)) == Lower(s)
  {
    var r := Lower(s);
    assert forall i :: 0 <= i < |r| ==> Lower(r)[i] == r[i];
  }

  /** Does `s` start with `prefix`? */
  predicate StartsWith(s: string, prefix: string) {
    |prefix| <= |s| && s[..|prefix|] == prefix
  }
}
