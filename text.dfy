/** The string tests the routes use: `startsWith`, and the `contains` filter with
    `mode: "insensitive"`, taken over ASCII letters. */
module Text {

  predicate IsUpper(c: char) {
    'A' <= c <= 'Z'
  }

  /** The lower-case form of an ASCII letter; every other character is kept. */
  function Lower(c: char): (d: char)
    ensures !IsUpper(d)
    ensures !IsUpper(c) ==> d == c
    ensures IsUpper(c) ==> d as int == c as int + 32
  {
    if IsUpper(c) then (c as int + 32) as char else c
  }

  function LowerString(s: string): (r: string)
    ensures |r| == |s|
    ensures forall i :: 0 <= i < |s| ==> r[i] == Lower(s[i])
  {
    seq(|s|, i requires 0 <= i < |s| => Lower(s[i]))
  }

  /** `prefix` begins `s` (`s.startsWith(prefix)`). */
  predicate StartsWith(s: string, prefix: string) {
    prefix <= s
  }

  /** `needle` occurs in `hay` starting at position `i`. */
  predicate OccursAt(hay: string, needle: string, i: nat) {
    i + |needle| <= |hay| && hay[i..i + |needle|] == needle
  }

  /** `needle` occurs in `hay` at some position. */
  predicate Contains(hay: string, needle: string) {
    exists i: nat :: i <= |hay| && OccursAt(hay, needle, i)
  }

  /** The `contains` filter with `mode: "insensitive"`. */
  predicate ContainsInsensitive(hay: string, needle: string) {
    Contains(LowerString(hay), LowerString(needle))
  }

  /** Lowering twice is lowering once. */
  lemma LowerStringIdempotent(s: string)
    ensures LowerString(LowerString(s)) == LowerString(s)
  {
  }

  /** The insensitive filter ignores the case of both its arguments. */
  lemma ContainsInsensitiveIgnoresCase(hay: string, needle: string)
    ensures ContainsInsensitive(hay, needle) <==> ContainsInsensitive(LowerString(hay), needle)
    ensures ContainsInsensitive(hay, needle) <==> ContainsInsensitive(hay, LowerString(needle))
  {
    LowerStringIdempotent(hay);
    LowerStringIdempotent(needle);
  }

  /** A string contains each of its substrings, whatever their case. */
  lemma {:induction false} ContainsSubstring(hay: string, i: nat, j: nat)
    requires i <= j <= |hay|
    ensures ContainsInsensitive(hay, hay[i..j])
  {
    var lh, ln := LowerString(hay), LowerString(hay[i..j]);
    assert OccursAt(lh, ln, i);
  }

  /** A character outside the Basic Multilingual Plane, which JavaScript stores as a
      surrogate pair. */
  predicate IsAstral(c: char) {
    c as int >= 0x10000
  }

  /** JavaScript's `length`: the number of UTF-16 code units, two for an astral character. */
  function Utf16Length(s: string): (n: nat)
    ensures |s| <= n <= 2 * |s|
    ensures n == |s| <==> forall i :: 0 <= i < |s| ==> !IsAstral(s[i])
  {
    if s == [] then 0
    else
      var rest := Utf16Length(s[1..]);
      assert forall i :: 1 <= i < |s| ==> s[i] == s[1..][i - 1];
      (if IsAstral(s[0]) then 2 else 1) + rest
  }

  /** Three emoji are six code units long. */
  lemma Utf16LengthOfEmoji()
    ensures Utf16Length("\U{1F600}\U{1F600}\U{1F600}") == 6
  {
    var s := "\U{1F600}\U{1F600}\U{1F600}";
    assert s[1..][1..][1..] == [];
  }
}
