/** The Python `str` operations the modelled code uses: the substring test
    `sub in s`, `sep.join(parts)` and `s.strip()`. */
module Strings {

  /** `sub` occurs in `s` starting at index `i`. */
  predicate OccursAt(s: string, sub: string, i: int) {
    0 <= i <= |s| - |sub| && s[i..i + |sub|] == sub
  }

  /** `sub in s`: `sub` occurs in `s` as a contiguous substring. */
  function Contains(s: string, sub: string): (r: bool)
    ensures r <==> exists i :: OccursAt(s, sub, i)
  {
    if |sub| > |s| then false
    else if s[..|sub|] == sub then
      assert OccursAt(s, sub, 0);
      true
    else
      var tail := Contains(s[1..], sub);
      assert forall i :: OccursAt(s[1..], sub, i) <==> OccursAt(s, sub, i + 1) by {
        forall i ensures OccursAt(s[1..], sub, i) <==> OccursAt(s, sub, i + 1) {
          if 0 <= i <= |s| - 1 - |sub| {
            assert s[1..][i..i + |sub|] == s[i + 1..i + 1 + |sub|];
          }
        }
      }
      assert !OccursAt(s, sub, 0);
      assert (exists i :: OccursAt(s, sub, i)) ==> exists i :: OccursAt(s[1..], sub, i) by {
        if exists i :: OccursAt(s, sub, i) {
          var i :| OccursAt(s, sub, i);
          assert OccursAt(s[1..], sub, i - 1);
        }
      }
      tail
  }

  /** `sep.join(parts)`. */
  function Join(sep: string, parts: seq<string>): string
  {
    if parts == [] then ""
    else if |parts| == 1 then parts[0]
    else parts[0] + sep + Join(sep, parts[1..])
  }

  /** The joined string begins with the first part, so joining non-empty
      parts gives `""` exactly when there are none. */
  lemma JoinStartsWithFirst(sep: string, parts: seq<string>)
    ensures parts != [] ==> parts[0] <= Join(sep, parts)
    ensures (forall k :: 0 <= k < |parts| ==> parts[k] != "") ==> (Join(sep, parts) == "" <==> parts == [])
  {
  }

  /** Python's `str.isspace()` for one character: the characters `str.strip()`
      with no argument removes. */
  predicate IsWhitespace(c: char) {
    c in WHITESPACE
  }

  const WHITESPACE: set<char> := {
    ' ', '\t', '\n', '\U{B}', '\U{C}', '\r', '\U{1C}', '\U{1D}', '\U{1E}', '\U{1F}',
    '\U{85}', '\U{A0}', '\U{1680}',
    '\U{2000}', '\U{2001}', '\U{2002}', '\U{2003}', '\U{2004}', '\U{2005}',
    '\U{2006}', '\U{2007}', '\U{2008}', '\U{2009}', '\U{200A}',
    '\U{2028}', '\U{2029}', '\U{202F}', '\U{205F}', '\U{3000}'
  }

  predicate AllWhitespace(s: string) {
    forall k :: 0 <= k < |s| ==> IsWhitespace(s[k])
  }

  /** The number of whitespace characters `s.lstrip()` removes from the front. */
  function LeadingWhitespace(s: string): (n: nat)
    ensures n <= |s|
    ensures forall k :: 0 <= k < n ==> IsWhitespace(s[k])
    ensures n < |s| ==> !IsWhitespace(s[n])
  {
    if s != "" && IsWhitespace(s[0]) then
      var n := LeadingWhitespace(s[1..]);
      assert forall k :: 1 <= k < n + 1 ==> s[k] == s[1..][k - 1];
      n + 1
    else 0
  }

  /** The number of whitespace characters `s.rstrip()` removes from the back. */
  function TrailingWhitespace(s: string): (n: nat)
    ensures n <= |s|
    ensures forall k :: |s| - n <= k < |s| ==> IsWhitespace(s[k])
    ensures n < |s| ==> !IsWhitespace(s[|s| - n - 1])
  {
    if s != "" && IsWhitespace(s[|s| - 1]) then
      var n := TrailingWhitespace(s[..|s| - 1]);
      assert forall k :: |s| - 1 - n <= k < |s| - 1 ==> s[k] == s[..|s| - 1][k];
      n + 1
    else 0
  }

  /** `s.strip()`: `s` with leading and trailing whitespace removed. The result
      is the piece `s[i..j]` of `s`, everything cut off on either side is
      whitespace, its ends are not whitespace, and it is empty exactly when
      `s` is all whitespace. */
  function Strip(s: string): (r: string)
    ensures var i := LeadingWhitespace(s);
            && i + |r| <= |s| && r == s[i..i + |r|]
            && AllWhitespace(s[..i]) && AllWhitespace(s[i + |r|..])
    ensures r != "" ==> !IsWhitespace(r[0]) && !IsWhitespace(r[|r| - 1])
    ensures r == "" <==> AllWhitespace(s)
  {
    var i := LeadingWhitespace(s);
    var t := TrailingWhitespace(s[i..]);
    StripPieces(s, i, t);
    StripEmpty(s, i, t);
    StripEnds(s, i, t);
    var r := s[i..|s| - t];
    assert i + |r| == |s| - t;
    r
  }

  /** What `strip()` cuts off: the leading run, then the trailing run of
      what is left; both are whitespace. */
  lemma StripPieces(s: string, i: nat, t: nat)
    requires i == LeadingWhitespace(s) && t == TrailingWhitespace(s[i..])
    ensures i <= |s| - t && AllWhitespace(s[..i]) && AllWhitespace(s[|s| - t..])
  {
    LeadingPiece(s, i);
    TrailingPiece(s, i, t);
  }

  lemma LeadingPiece(s: string, i: nat)
    requires i == LeadingWhitespace(s)
    ensures AllWhitespace(s[..i])
  {
    var head := s[..i];
    assert forall k :: 0 <= k < i ==> head[k] == s[k];
  }

  lemma TrailingPiece(s: string, i: nat, t: nat)
    requires i <= |s| && t == TrailingWhitespace(s[i..])
    ensures i <= |s| - t && AllWhitespace(s[|s| - t..])
  {
    var rest, tail := s[i..], s[|s| - t..];
    assert forall k :: 0 <= k < |tail| ==> tail[k] == rest[|rest| - t + k];
  }

  lemma StripEnds(s: string, i: nat, t: nat)
    requires i == LeadingWhitespace(s) && t == TrailingWhitespace(s[i..])
    requires i <= |s| - t
    ensures var r := s[i..|s| - t];
            r != "" ==> !IsWhitespace(r[0]) && !IsWhitespace(r[|r| - 1])
  {
    var r, rest := s[i..|s| - t], s[i..];
    if r != "" {
      assert i < |s| && r[0] == s[i];
      assert !IsWhitespace(s[i]);
      assert t < |rest| && !IsWhitespace(rest[|rest| - t - 1]);
      assert r[|r| - 1] == rest[|rest| - t - 1];
    }
  }

  /** Nothing is left exactly when the whole string is whitespace. */
  lemma StripEmpty(s: string, i: nat, t: nat)
    requires i == LeadingWhitespace(s) && t == TrailingWhitespace(s[i..])
    requires i <= |s| - t
    ensures s[i..|s| - t] == "" <==> AllWhitespace(s)
  {
    if i == |s| - t {
      assert i == |s|;
    } else {
      assert |s[i..|s| - t]| > 0;
      assert i < |s| && !IsWhitespace(s[i]);
    }
  }
}
