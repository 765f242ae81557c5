/** Character-level string helpers: ASCII case folding and substring search. */
module Text {

  /** ASCII lower-casing of one character (`char.ToLower` on the letters the BPMN names use). */
  function LowerChar(c: char): (r: char)
    ensures 'A' <= c <= 'Z' ==> r as int == c as int + 32
    ensures !('A' <= c <= 'Z') ==> r == c
    ensures !('A' <= r <= 'Z')
  {
    if 'A' <= c <= 'Z' then (c as int + 32) as char else c
  }

  /** `string.ToLower()` restricted to ASCII letters. */
  function ToLower(s: seq<char>): (r: seq<char>)
    ensures |r| == |s|
    ensures forall i :: 0 <= i < |s| ==> r[i] == LowerChar(s[i])
  {
    seq(|s|, i requires 0 <= i < |s| => LowerChar(s[i]))
  }

  /** True when `p` occurs in `s` at position `i`. */
  predicate OccursAt(p: seq<char>, s: seq<char>, i: nat)
  {
    i + |p| <= |s| && s[i..i + |p|] == p
  }

  /** `s.Contains(p)` with ordinal comparison: some position of `s` starts a copy of `p`. */
  predicate Contains(s: seq<char>, p: seq<char>)
  {
    exists i: nat | i <= |s| :: OccursAt(p, s, i)
  }

  /** `s.Contains(p, StringComparison.OrdinalIgnoreCase)`, folding ASCII letters. */
  predicate ContainsIgnoreCase(s: seq<char>, p: seq<char>)
  {
    Contains(ToLower(s), ToLower(p))
  }

  /** The empty string is contained in every string. */
  lemma EmptyContained(s: seq<char>)
    ensures Contains(s, [])
  {
    assert OccursAt([], s, 0);
  }

  /** A string longer than the text cannot be contained in it. */
  lemma TooLongNotContained(s: seq<char>, p: seq<char>)
    requires |s| < |p|
    ensures !Contains(s, p)
  {
  }

  /** A string is contained in itself, whatever its case. */
  lemma {:induction false} ContainsIgnoreCaseSelf(s: seq<char>)
    ensures ContainsIgnoreCase(s, s)
  {
    assert OccursAt(ToLower(s), ToLower(s), 0);
  }

  /** `string.Join(sep, parts)`. */
  function Join(parts: seq<seq<char>>, sep: seq<char>): (r: seq<char>)
    ensures parts == [] ==> r == []
    ensures |parts| == 1 ==> r == parts[0]
  {
    if parts == [] then []
    else if |parts| == 1 then parts[0]
    else parts[0] + sep + Join(parts[1..], sep)
  }
}
