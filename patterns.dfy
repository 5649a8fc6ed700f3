/** The two line patterns of the outline format, written out by hand in place of
    the regular expressions `^(\*+)\s+(.+?)$` (a heading) and
    `^#\+(.+?):\s+(.+?)$` (a metadata line). Both are applied to lines that have
    already been stripped, so a line never ends in white space here. */
module Patterns {
  import opened Wrappers
  import opened Text

  /** `s` reads `depth` stars, then white space, then `text`: what the heading
      expression matches, with `\*+` and `\s+` taken greedily and `.` never
      matching a line feed. */
  ghost predicate IsHeading(s: string, depth: nat, text: string) {
    1 <= depth && depth + |text| < |s|
    && (forall k | 0 <= k < depth :: s[k] == '*')
    && (forall k | depth <= k < |s| - |text| :: IsSpace(s[k]))
    && s[|s| - |text|..] == text
    && text != [] && !IsSpace(text[0]) && '\n' !in text
  }

  /** The heading expression, read from position `i` on after `i` stars:
      more stars deepen the heading; then the white space and the text. */
  function HeadingFrom(s: string, i: nat): (r: Option<(nat, string)>)
    requires i <= |s|
    ensures r.Some? ==> i <= r.value.0 && 1 <= r.value.0 && r.value.0 + |r.value.1| < |s|
    decreases |s| - i
  {
    if i < |s| && s[i] == '*' then HeadingFrom(s, i + 1)
    else if i == 0 || i == |s| || !IsSpace(s[i]) then None
    else
      var start := SpaceRun(s, i);
      if start == |s| || '\n' in s[start..] then None
      else Some((i, s[start..]))
  }

  /** The heading expression: the number of leading stars and the text after
      the white space that follows them. */
  function MatchHeading(s: string): (r: Option<(nat, string)>)
    ensures r.Some? ==> 1 <= r.value.0 && r.value.0 + |r.value.1| < |s|
  {
    HeadingFrom(s, 0)
  }

  lemma {:induction false} HeadingFromSound(s: string, i: nat)
    requires i <= |s| && (forall k | 0 <= k < i :: s[k] == '*') && HeadingFrom(s, i).Some?
    ensures IsHeading(s, HeadingFrom(s, i).value.0, HeadingFrom(s, i).value.1)
    decreases |s| - i
  {
    if i < |s| && s[i] == '*' {
      HeadingFromSound(s, i + 1);
    }
  }

  /** What the matcher finds is a heading. */
  lemma MatchHeadingSound(s: string)
    requires MatchHeading(s).Some?
    ensures IsHeading(s, MatchHeading(s).value.0, MatchHeading(s).value.1)
  {
    HeadingFromSound(s, 0);
  }

  lemma {:induction false} HeadingFromComplete(s: string, i: nat, depth: nat, text: string)
    requires IsHeading(s, depth, text) && i <= depth
    ensures HeadingFrom(s, i) == Some((depth, text))
    decreases depth - i
  {
    if i < depth {
      HeadingFromComplete(s, i + 1, depth, text);
    } else {
      assert s[depth] != '*' by { assert IsSpace(s[depth]); }
      var start := |s| - |text|;
      assert s[start] == text[0];
      assert SpaceRun(s, depth) == start;
    }
  }

  /** The split that `IsHeading` describes is the one `MatchHeading` finds: the
      matcher misses no heading. */
  lemma MatchHeadingComplete(s: string, depth: nat, text: string)
    requires IsHeading(s, depth, text)
    ensures MatchHeading(s) == Some((depth, text))
  {
    HeadingFromComplete(s, 0, depth, text);
  }

  /** `s` reads `#+`, a key running up to the `:` at `colon`, white space, and
      a value starting at `start`. */
  ghost predicate IsMetaAt(s: string, colon: nat, start: nat) {
    3 <= colon && colon + 1 < start < |s|
    && s[0] == '#' && s[1] == '+' && '\n' !in s[2..colon] && s[colon] == ':'
    && (forall k | colon < k < start :: IsSpace(s[k]))
    && !IsSpace(s[start]) && '\n' !in s[start..]
  }

  /** The first split of `s` at a colon not before `colon`. The lazy key `.+?`
      makes the leftmost colon that works win. */
  function FindMeta(s: string, colon: nat): (r: Option<(nat, nat)>)
    requires 3 <= colon && |s| >= 2 && s[0] == '#' && s[1] == '+'
    requires colon <= |s| && '\n' !in s[2..colon]
    ensures r.Some? ==> colon <= r.value.0 && IsMetaAt(s, r.value.0, r.value.1)
    ensures r.Some? ==> forall c, t | colon <= c < r.value.0 :: !IsMetaAt(s, c, t)
    decreases |s| - colon
  {
    if colon == |s| then None
    else if s[colon] == ':' && colon + 1 < |s| && IsSpace(s[colon + 1])
            && SpaceRun(s, colon + 1) < |s| && '\n' !in s[SpaceRun(s, colon + 1)..] then
      Some((colon, SpaceRun(s, colon + 1)))
    else if s[colon] == '\n' then None
    else
      assert s[2..colon + 1] == s[2..colon] + [s[colon]];
      var r := FindMeta(s, colon + 1);
      assert r.Some? ==> forall t :: !IsMetaAt(s, colon, t) by {
        if r.Some? {
          forall t | IsMetaAt(s, colon, t) ensures false {
            MetaStartIsRun(s, colon, t);
          }
        }
      }
      r
  }

  /** Given the colon, the value starts where the white space after it ends. */
  lemma MetaStartIsRun(s: string, colon: nat, start: nat)
    requires IsMetaAt(s, colon, start)
    ensures SpaceRun(s, colon + 1) == start
  {
  }

  /** The metadata expression: the key and the value of a `#+KEY: VALUE` line. */
  function MatchMeta(s: string): (r: Option<(string, string)>)
    ensures r.Some? ==> var (key, value) := r.value;
      2 + |key| + |value| <= |s| && IsMetaAt(s, 2 + |key|, |s| - |value|)
      && s[2..2 + |key|] == key && s[|s| - |value|..] == value
      && forall c, t | 3 <= c < 2 + |key| :: !IsMetaAt(s, c, t)
  {
    if |s| < 3 || s[0] != '#' || s[1] != '+' || s[2] == '\n' then None
    else
      assert s[2..3] == [s[2]];
      match FindMeta(s, 3)
      case None => None
      case Some((colon, start)) => Some((s[2..colon], s[start..]))
  }

  /** The matcher misses no metadata line: when some split exists, one is
      found, and it is the one with the shortest key. */
  lemma {:induction false} MatchMetaComplete(s: string, colon: nat, start: nat)
    requires IsMetaAt(s, colon, start)
    ensures MatchMeta(s).Some?
    ensures |MatchMeta(s).value.0| <= colon - 2
  {
    assert s[2] != '\n' by { assert s[2..colon][0] == s[2]; }
    assert s[2..3] == [s[2]];
    FindMetaComplete(s, 3, colon, start);
  }

  lemma {:induction false} FindMetaComplete(s: string, from: nat, colon: nat, start: nat)
    requires 3 <= from <= colon && |s| >= 2 && s[0] == '#' && s[1] == '+'
    requires from <= |s| && '\n' !in s[2..from]
    requires IsMetaAt(s, colon, start)
    ensures FindMeta(s, from).Some? && FindMeta(s, from).value.0 <= colon
    decreases colon - from
  {
    MetaStartIsRun(s, colon, start);
    if from < colon {
      assert s[from] != '\n' by { assert s[2..colon][from - 2] == s[from]; }
      var cand := s[from] == ':' && from + 1 < |s| && IsSpace(s[from + 1])
                  && SpaceRun(s, from + 1) < |s| && '\n' !in s[SpaceRun(s, from + 1)..];
      if !cand {
        assert s[2..from + 1] == s[2..from] + [s[from]];
        FindMetaComplete(s, from + 1, colon, start);
      }
    }
  }

  /** No line is both a heading and a metadata line: one begins with `*`, the
      other with `#`. */
  lemma NeverBoth(s: string)
    ensures !(MatchHeading(s).Some? && MatchMeta(s).Some?)
  {
  }
}
