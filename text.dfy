/** The string operations the interview controller relies on: lower-casing,
    substring search, whitespace stripping and joining lines. */
module Text {

  /** Lower-cases one character; only the ASCII letters A-Z are mapped. */
  function LowerChar(c: char): (d: char)
    ensures 'A' <= c <= 'Z' ==> 'a' <= d <= 'z'
    ensures !('A' <= c <= 'Z') ==> d == c
  {
    if 'A' <= c <= 'Z' then (c as int + 32) as char else c
  }

  /** The lower-cased copy of a string, character by character. */
  function Lower(s: string): (r: string)
    ensures |r| == |s|
    ensures forall i :: 0 <= i < |s| ==> r[i] == LowerChar(s[i])
  {
    seq(|s|, i requires 0 <= i < |s| => LowerChar(s[i]))
  }

  /** `pat` occurs somewhere in `s` as a contiguous block. */
  ghost predicate IsSubstring(pat: string, s: string)
  {
    exists i :: 0 <= i <= |s| - |pat| && pat <= s[i..]
  }

  /** The substring search behind the `in` operator on strings: try every
      starting position from the left. */
  function Contains(s: string, pat: string): (b: bool)
    ensures b ==> |pat| <= |s|
    ensures pat == [] ==> b
    decreases |s|
  {
    if pat <= s then true
    else if s == [] then false
    else Contains(s[1..], pat)
  }

  lemma {:induction false} ContainsIffSubstring(s: string, pat: string)
    ensures Contains(s, pat) <==> IsSubstring(pat, s)
    decreases |s|
  {
    if pat <= s {
      assert pat <= s[0..];
    } else if s == [] {
      assert |pat| > 0;
    } else {
      ContainsIffSubstring(s[1..], pat);
      if IsSubstring(pat, s) {
        var i :| 0 <= i <= |s| - |pat| && pat <= s[i..];
        assert i != 0;
        assert s[1..][i - 1..] == s[i..];
      }
      if IsSubstring(pat, s[1..]) {
        var i :| 0 <= i <= |s[1..]| - |pat| && pat <= s[1..][i..];
        assert s[1..][i..] == s[i + 1..];
      }
    }
  }

  /** The ASCII characters Python's `str.strip()` removes: space, tab, the
      line breaks, vertical tab, form feed and the four separators
      0x1C-0x1F. */
  const Whitespace: set<char> :=
    {' ', '\t', '\n', '\r', '\U{B}', '\U{C}', '\U{1C}', '\U{1D}', '\U{1E}', '\U{1F}'}

  ghost predicate Blank(s: string)
  {
    forall i :: 0 <= i < |s| ==> s[i] in Whitespace
  }

  function TrimLeft(s: string): (r: string)
    ensures r != [] ==> r[0] !in Whitespace
    ensures |r| <= |s|
    decreases |s|
  {
    if s != [] && s[0] in Whitespace then TrimLeft(s[1..]) else s
  }

  /** Trimming on the left only removes characters from the front. */
  lemma {:induction false} TrimLeftIsSuffix(s: string)
    ensures TrimLeft(s) == s[|s| - |TrimLeft(s)|..]
    decreases |s|
  {
    if s != [] && s[0] in Whitespace {
      TrimLeftIsSuffix(s[1..]);
    }
  }

  function TrimRight(s: string): (r: string)
    ensures r != [] ==> r[|r| - 1] !in Whitespace
    ensures |r| <= |s|
    decreases |s|
  {
    if s != [] && s[|s| - 1] in Whitespace then TrimRight(s[..|s| - 1]) else s
  }

  /** Trimming on the right only removes characters from the back. */
  lemma {:induction false} TrimRightIsPrefix(s: string)
    ensures TrimRight(s) == s[..|TrimRight(s)|]
    decreases |s|
  {
    if s != [] && s[|s| - 1] in Whitespace {
      TrimRightIsPrefix(s[..|s| - 1]);
    }
  }

  /** `str.strip()`: drops leading and trailing whitespace. */
  function Strip(s: string): (r: string)
    ensures |r| <= |s|
    ensures r != [] ==> r[0] !in Whitespace && r[|r| - 1] !in Whitespace
  {
    TrimRightIsPrefix(TrimLeft(s));
    TrimRight(TrimLeft(s))
  }

  lemma {:induction false} TrimLeftEmptyIffBlank(s: string)
    ensures TrimLeft(s) == [] <==> Blank(s)
    decreases |s|
  {
    if s != [] && s[0] in Whitespace {
      TrimLeftEmptyIffBlank(s[1..]);
      assert Blank(s) <==> Blank(s[1..]) by {
        if Blank(s[1..]) {
          forall i | 0 <= i < |s| ensures s[i] in Whitespace {
            if i > 0 { assert s[i] == s[1..][i - 1]; }
          }
        }
      }
    }
  }

  lemma {:induction false} TrimRightEmptyIffBlank(s: string)
    ensures TrimRight(s) == [] <==> Blank(s)
    decreases |s|
  {
    if s != [] && s[|s| - 1] in Whitespace {
      TrimRightEmptyIffBlank(s[..|s| - 1]);
      assert Blank(s) <==> Blank(s[..|s| - 1]) by {
        if Blank(s[..|s| - 1]) {
          forall i | 0 <= i < |s| ensures s[i] in Whitespace {
            if i < |s| - 1 { assert s[i] == s[..|s| - 1][i]; }
          }
        }
      }
    }
  }

  /** A string strips to nothing exactly when every character is whitespace,
      which is what the test `s and s.strip()` rules out. */
  lemma StripEmptyIffBlank(s: string)
    ensures Strip(s) == [] <==> Blank(s)
  {
    var t := TrimLeft(s);
    TrimLeftEmptyIffBlank(s);
    TrimRightEmptyIffBlank(t);
    if t != [] {
      assert !Blank(t) by { assert t[0] !in Whitespace; }
    }
  }

  /** Stripping a stripped string changes nothing: a line that reaches
      the speech engine already stripped is said as it is. */
  lemma StripIdempotent(s: string)
    ensures Strip(Strip(s)) == Strip(s)
  {
    var t := TrimLeft(s);
    var u := TrimRight(t);
    TrimRightIsPrefix(t);
    if u != [] {
      assert u[0] == t[0];
    }
    assert TrimLeft(u) == u;
    if u != [] {
      assert TrimRight(u) == u;
    }
  }

  /** `sep.join(lines)`. */
  function Join(lines: seq<string>, sep: string): string
  {
    if lines == [] then ""
    else if |lines| == 1 then lines[0]
    else lines[0] + sep + Join(lines[1..], sep)
  }

  lemma {:induction false} JoinSnoc(lines: seq<string>, last: string, sep: string)
    ensures Join(lines + [last], sep) == if lines == [] then last else Join(lines, sep) + sep + last
  {
    if |lines| == 1 {
      assert (lines + [last])[1..] == [last];
    } else if |lines| > 1 {
      assert (lines + [last])[1..] == lines[1..] + [last];
      JoinSnoc(lines[1..], last, sep);
    }
  }
}
