/** The two string operations of the JavaScript runtime that the chat page and
    the keyboard hook rely on: `String.prototype.trim`, and `RegExp.test` with a
    pattern made only of literal alternatives, which is a substring search. */
module JsText {

  /** The WhiteSpace and LineTerminator code points of ECMAScript: exactly the
      characters that `trim` removes from both ends of a string. */
  predicate IsWhitespace(c: char) {
    || ('\t' <= c <= '\r')                    // TAB, LF, VT, FF, CR
    || c == ' ' || c == '\U{A0}' || c == '\U{1680}'
    || ('\U{2000}' <= c <= '\U{200A}')
    || c == '\U{2028}' || c == '\U{2029}'     // LINE and PARAGRAPH SEPARATOR
    || c == '\U{202F}' || c == '\U{205F}' || c == '\U{3000}'
    || c == '\U{FEFF}'                        // BYTE ORDER MARK
  }

  ghost predicate AllWhitespace(s: string) {
    forall i :: 0 <= i < |s| ==> IsWhitespace(s[i])
  }

  /** Neither end of s is whitespace. */
  ghost predicate IsTrimmed(s: string) {
    s == [] || (!IsWhitespace(s[0]) && !IsWhitespace(s[|s| - 1]))
  }

  /** s consists of some whitespace, then r starting at index i, then some whitespace. */
  ghost predicate PaddedAt(s: string, r: string, i: int) {
    && 0 <= i && i + |r| <= |s|
    && s[i..i + |r|] == r
    && AllWhitespace(s[..i])
    && AllWhitespace(s[i + |r|..])
  }

  /** The number of whitespace characters s starts with. */
  function LeadingWhitespace(s: string): (k: nat)
    ensures k <= |s|
    ensures forall i :: 0 <= i < k ==> IsWhitespace(s[i])
    ensures k < |s| ==> !IsWhitespace(s[k])
  {
    if s == [] || !IsWhitespace(s[0]) then 0 else 1 + LeadingWhitespace(s[1..])
  }

  /** The index at which the whitespace s ends with begins. */
  function TrailingWhitespaceStart(s: string): (k: nat)
    ensures k <= |s|
    ensures forall i :: k <= i < |s| ==> IsWhitespace(s[i])
    ensures 0 < k ==> !IsWhitespace(s[k - 1])
  {
    if s == [] || !IsWhitespace(s[|s| - 1]) then |s|
    else TrailingWhitespaceStart(s[..|s| - 1])
  }

  /** `s.trim()`: s without its leading and trailing whitespace. */
  function Trim(s: string): (r: string)
    ensures IsTrimmed(r)
    ensures exists i :: PaddedAt(s, r, i)
    ensures r == [] <==> AllWhitespace(s)
  {
    var a := LeadingWhitespace(s);
    var t := s[a..];
    var b := TrailingWhitespaceStart(t);
    var r := t[..b];
    assert PaddedAt(s, r, a) by {
      assert s[a..a + |r|] == r;
      assert s[a + |r|..] == t[b..];
    }
    assert r != [] ==> !IsWhitespace(s[a]);
    r
  }

  /** Trim is fully determined by PaddedAt: whenever s is m padded with
      whitespace on both sides and m itself is trimmed, `s.trim()` is m. */
  lemma {:induction false} TrimUnique(s: string, m: string, i: int)
    requires IsTrimmed(m) && PaddedAt(s, m, i)
    ensures Trim(s) == m
  {
    var r := Trim(s);
    var j :| PaddedAt(s, r, j);
    if m == [] {
      assert AllWhitespace(s) by {
        forall k | 0 <= k < |s| ensures IsWhitespace(s[k]) {
          if k < i { assert s[k] == s[..i][k]; }
          else { assert s[k] == s[i..][k - i]; }
        }
      }
    } else {
      assert s[i] == m[0] && s[i + |m| - 1] == m[|m| - 1];
      assert s[j] == r[0] && s[j + |r| - 1] == r[|r| - 1];
    }
  }

  /** Trimming twice is trimming once. */
  lemma TrimIdempotent(s: string)
    ensures Trim(Trim(s)) == Trim(s)
  {
    var r := Trim(s);
    assert PaddedAt(r, r, 0) by { assert r[0..|r|] == r; }
    TrimUnique(r, r, 0);
  }

  /** The pattern occurs in s at index i. */
  ghost predicate OccursAt(s: string, pattern: string, i: int) {
    0 <= i && i + |pattern| <= |s| && s[i..i + |pattern|] == pattern
  }

  /** `new RegExp(pattern).test(s)` for a pattern without metacharacters. */
  function Contains(s: string, pattern: string): (r: bool)
    ensures r <==> exists i :: OccursAt(s, pattern, i)
    decreases |s|
  {
    if |s| < |pattern| then false
    else if s[..|pattern|] == pattern then
      assert OccursAt(s, pattern, 0);
      true
    else
      var r := Contains(s[1..], pattern);
      assert r ==> exists i :: OccursAt(s, pattern, i) by {
        if r {
          var i :| OccursAt(s[1..], pattern, i);
          assert s[i + 1..i + 1 + |pattern|] == s[1..][i..i + |pattern|];
          assert OccursAt(s, pattern, i + 1);
        }
      }
      assert (exists i :: OccursAt(s, pattern, i)) ==> r by {
        if exists i :: OccursAt(s, pattern, i) {
          var i :| OccursAt(s, pattern, i);
          assert i != 0;
          assert s[1..][i - 1..i - 1 + |pattern|] == s[i..i + |pattern|];
          assert OccursAt(s[1..], pattern, i - 1);
        }
      }
      r
  }
}
