/**
 * The string primitives the gallery's search relies on: JavaScript's
 * `String.prototype.trim`, `toLowerCase` and `includes`, over strings of
 * code points.
 */
module Text {

  /** ECMAScript's WhiteSpace and LineTerminator code points, which `trim` strips. */
  predicate IsWhitespace(c: char)
  {
    var n := c as int;
    n == 0x09 || n == 0x0A || n == 0x0B || n == 0x0C || n == 0x0D || n == 0x20
    || n == 0xA0 || n == 0x1680 || (0x2000 <= n <= 0x200A) || n == 0x2028
    || n == 0x2029 || n == 0x202F || n == 0x205F || n == 0x3000 || n == 0xFEFF
  }

  ghost predicate Blank(s: string)
  {
    forall k :: 0 <= k < |s| ==> IsWhitespace(s[k])
  }

  /** Drops leading whitespace. */
  function TrimStart(s: string): string
  {
    if s != [] && IsWhitespace(s[0]) then TrimStart(s[1..]) else s
  }

  /** Drops trailing whitespace. */
  function TrimEnd(s: string): string
  {
    if s != [] && IsWhitespace(s[|s| - 1]) then TrimEnd(s[..|s| - 1]) else s
  }

  /** `s.trim()` */
  function Trim(s: string): string
  {
    TrimEnd(TrimStart(s))
  }

  /** `TrimStart` keeps the suffix of `s` after its longest blank prefix. */
  lemma {:induction false} TrimStartIsSuffix(s: string)
    ensures |TrimStart(s)| <= |s| && TrimStart(s) == s[|s| - |TrimStart(s)|..]
    ensures Blank(s[..|s| - |TrimStart(s)|])
    ensures TrimStart(s) != [] ==> !IsWhitespace(TrimStart(s)[0])
  {
    if s != [] && IsWhitespace(s[0]) {
      TrimStartIsSuffix(s[1..]);
      var n := |s| - |TrimStart(s)|;
      forall k | 0 <= k < n ensures IsWhitespace(s[..n][k]) {
        assert s[..n][k] == s[k];
        if k > 0 {
          assert s[k] == s[1..][..n - 1][k - 1];
        }
      }
    }
  }

  /** `TrimEnd` keeps the prefix of `s` before its longest blank suffix. */
  lemma {:induction false} TrimEndIsPrefix(s: string)
    ensures |TrimEnd(s)| <= |s| && TrimEnd(s) == s[..|TrimEnd(s)|]
    ensures Blank(s[|TrimEnd(s)|..])
    ensures TrimEnd(s) != [] ==> !IsWhitespace(TrimEnd(s)[|TrimEnd(s)| - 1])
  {
    if s != [] && IsWhitespace(s[|s| - 1]) {
      var init := s[..|s| - 1];
      TrimEndIsPrefix(init);
      var n := |TrimEnd(s)|;
      forall k | 0 <= k < |s| - n ensures IsWhitespace(s[n..][k]) {
        if k < |s| - 1 - n {
          assert s[n..][k] == init[n..][k];
        }
      }
    }
  }

  /** `trim` yields the empty string exactly when the input is all whitespace. */
  lemma TrimEmptyIffBlank(s: string)
    ensures Trim(s) == [] <==> Blank(s)
  {
    var a := TrimStart(s);
    TrimStartIsSuffix(s);
    TrimEndIsPrefix(a);
    if Trim(s) == [] {
      assert Blank(a[0..]);
      assert a == [];
      assert s[..|s|] == s;
    }
    if Blank(s) {
      TrimStartOfBlank(s);
    }
  }

  lemma {:induction false} TrimStartOfBlank(s: string)
    requires Blank(s)
    ensures TrimStart(s) == []
  {
    if s != [] {
      TrimStartOfBlank(s[1..]);
    }
  }

  /** Trimming an already trimmed string changes nothing. */
  lemma TrimIdempotent(s: string)
    ensures Trim(Trim(s)) == Trim(s)
  {
    var a := TrimStart(s);
    TrimStartIsSuffix(s);
    TrimEndIsPrefix(a);
    var r := Trim(s);
    assert TrimStart(r) == r;
    assert TrimEnd(r) == r;
  }

  /** A string that neither starts nor ends with whitespace is its own trim. */
  lemma TrimUnpadded(s: string)
    requires s != [] && !IsWhitespace(s[0]) && !IsWhitespace(s[|s| - 1])
    ensures Trim(s) == s
  {
  }

  /** `toLowerCase` on one character, restricted to the ASCII letters. */
  function LowerChar(c: char): char
  {
    if 'A' <= c <= 'Z' then (c as int + 32) as char else c
  }

  /** `s.toLowerCase()`: folds every character, keeps the length. */
  function ToLower(s: string): (r: string)
    ensures |r| == |s|
  {
    seq(|s|, k requires 0 <= k < |s| => LowerChar(s[k]))
  }

  /** Lower-casing twice is lower-casing once, and the result holds no upper-case ASCII letter. */
  lemma ToLowerIdempotent(s: string)
    ensures ToLower(ToLower(s)) == ToLower(s)
    ensures forall k :: 0 <= k < |s| ==> !('A' <= ToLower(s)[k] <= 'Z')
  {
  }

  /** `term` occurs in `s` starting at index `i`. */
  ghost predicate OccursAt(s: string, term: string, i: int)
  {
    0 <= i && i + |term| <= |s| && s[i..i + |term|] == term
  }

  /** `s.includes(term)`: a left-to-right search for `term`. */
  predicate Contains(s: string, term: string)
    decreases |s|
  {
    (|term| <= |s| && s[..|term|] == term) || (s != [] && Contains(s[1..], term))
  }

  /** The search finds `term` exactly when `term` occurs somewhere in `s`. */
  lemma {:induction false} ContainsIffOccurs(s: string, term: string)
    ensures Contains(s, term) <==> exists i :: OccursAt(s, term, i)
    decreases |s|
  {
    if |term| <= |s| && s[..|term|] == term {
      assert OccursAt(s, term, 0);
    } else if s == [] {
      assert term != [];
    } else {
      ContainsIffOccurs(s[1..], term);
      if Contains(s[1..], term) {
        var i :| OccursAt(s[1..], term, i);
        assert s[i + 1..i + 1 + |term|] == s[1..][i..i + |term|];
        assert OccursAt(s, term, i + 1);
      }
      if exists i :: OccursAt(s, term, i) {
        var i :| OccursAt(s, term, i);
        assert i != 0;
        assert s[1..][i - 1..i - 1 + |term|] == s[i..i + |term|];
        assert OccursAt(s[1..], term, i - 1);
      }
    }
  }

  /** A string lacking the first character of `term` does not include `term`. */
  lemma {:induction false} NotContainsWithoutFirstChar(s: string, term: string)
    requires term != [] && term[0] !in s
    ensures !Contains(s, term)
    decreases |s|
  {
    if s != [] {
      assert s[0] != term[0];
      NotContainsWithoutFirstChar(s[1..], term);
    }
  }
}
