/** Character classes and string helpers the line parser relies on. */
module Text {

  /** Python's `str.isspace`: the characters that `str.strip` removes and that
      `\s` matches in a `str` regular expression. */
  predicate IsSpace(c: char) {
    var n := c as int;
    (0x09 <= n <= 0x0D) || (0x1C <= n <= 0x20) || n == 0x85 || n == 0xA0 || n == 0x1680
    || (0x2000 <= n <= 0x200A) || n == 0x2028 || n == 0x2029 || n == 0x202F
    || n == 0x205F || n == 0x3000
  }

  /** `r` is `s` with `i` characters of white space removed in front and the
      rest of what follows `r` white space as well. */
  ghost predicate TrimmedAt(s: string, r: string, i: nat) {
    i + |r| <= |s| && s[i..i + |r|] == r
    && (forall k | 0 <= k < i :: IsSpace(s[k]))
    && (forall k | i + |r| <= k < |s| :: IsSpace(s[k]))
  }

  /** End of the run of white space that starts at `i`. */
  function SpaceRun(s: string, i: nat): (j: nat)
    requires i <= |s|
    ensures i <= j <= |s|
    ensures forall k | i <= k < j :: IsSpace(s[k])
    ensures j == |s| || !IsSpace(s[j])
    decreases |s| - i
  {
    if i < |s| && IsSpace(s[i]) then SpaceRun(s, i + 1) else i
  }

  /** Python's `str.strip()`: white space goes from both ends; what is left
      neither starts nor ends with it. */
  function Strip(s: string): (r: string)
    ensures |r| <= |s|
    ensures r == [] || (!IsSpace(r[0]) && !IsSpace(r[|r| - 1]))
    decreases |s|
  {
    if s != [] && IsSpace(s[0]) then Strip(s[1..])
    else if s != [] && IsSpace(s[|s| - 1]) then Strip(s[..|s| - 1])
    else s
  }

  lemma TrimmedFront(s: string, r: string, i: nat)
    requires s != [] && IsSpace(s[0]) && TrimmedAt(s[1..], r, i)
    ensures TrimmedAt(s, r, i + 1)
  {
    assert s[i + 1..i + 1 + |r|] == s[1..][i..i + |r|];
    forall k | 0 <= k < i + 1
      ensures IsSpace(s[k])
    {
      if k > 0 {
        assert s[k] == s[1..][k - 1];
      }
    }
    forall k | i + 1 + |r| <= k < |s|
      ensures IsSpace(s[k])
    {
      assert s[k] == s[1..][k - 1];
    }
  }

  lemma TrimmedBack(s: string, r: string, i: nat)
    requires s != [] && IsSpace(s[|s| - 1]) && TrimmedAt(s[..|s| - 1], r, i)
    ensures TrimmedAt(s, r, i)
  {
    assert s[i..i + |r|] == s[..|s| - 1][i..i + |r|];
    forall k | 0 <= k < i
      ensures IsSpace(s[k])
    {
      assert s[k] == s[..|s| - 1][k];
    }
    forall k | i + |r| <= k < |s|
      ensures IsSpace(s[k])
    {
      if k < |s| - 1 {
        assert s[k] == s[..|s| - 1][k];
      }
    }
  }

  /** Everything `Strip` removes, at either end, is white space, so the result
      is an infix of `s` and the longest one that does not start or end with
      white space. */
  lemma {:induction false} StripRemovesSpace(s: string)
    ensures exists i: nat :: TrimmedAt(s, Strip(s), i)
    decreases |s|
  {
    var r := Strip(s);
    if s != [] && IsSpace(s[0]) {
      StripRemovesSpace(s[1..]);
      var i: nat :| TrimmedAt(s[1..], r, i);
      TrimmedFront(s, r, i);
    } else if s != [] && IsSpace(s[|s| - 1]) {
      StripRemovesSpace(s[..|s| - 1]);
      var i: nat :| TrimmedAt(s[..|s| - 1], r, i);
      TrimmedBack(s, r, i);
    } else {
      assert TrimmedAt(s, r, 0);
    }
  }

  function LowerAscii(c: char): char {
    if 'A' <= c <= 'Z' then (c as int + 32) as char else c
  }

  /** `key.lower() == 'title'`. Only ASCII letters are folded; no other
      character lower-cases to a single letter of "title", so the answer is the
      same as with full case folding. */
  predicate IsTitleKey(key: string) {
    |key| == 5 && forall i | 0 <= i < 5 :: LowerAscii(key[i]) == "title"[i]
  }
}
