/**
 * The Python string operations the importer applies to CSV cells:
 * `str.strip()` with Python's notion of white space, and
 * `str.replace(pat, '')`, which removes the non-overlapping occurrences of
 * `pat` found scanning left to right in one pass.
 */
module PyText {

  /** The characters `str.isspace()` accepts, which `strip()` removes. */
  predicate IsPyWhitespace(c: char)
  {
    c == ' ' || c == '\t' || c == '\n' || c == '\r' || c == '\U{000B}' || c == '\U{000C}'
    || ('\U{001C}' <= c <= '\U{001F}') || c == '\U{0085}' || c == '\U{00A0}' || c == '\U{1680}'
    || ('\U{2000}' <= c <= '\U{200A}') || c == '\U{2028}' || c == '\U{2029}' || c == '\U{202F}'
    || c == '\U{205F}' || c == '\U{3000}'
  }

  /** The number of leading white-space characters. */
  function LeadingSpace(s: string): (k: nat)
    ensures k <= |s|
  {
    if |s| == 0 || !IsPyWhitespace(s[0]) then 0 else 1 + LeadingSpace(s[1..])
  }

  /** `LeadingSpace` counts exactly the white space before the first other character. */
  lemma {:induction false} LeadingSpaceIsSpace(s: string)
    ensures forall i :: 0 <= i < LeadingSpace(s) ==> IsPyWhitespace(s[i])
    ensures LeadingSpace(s) < |s| ==> !IsPyWhitespace(s[LeadingSpace(s)])
  {
    if |s| > 0 && IsPyWhitespace(s[0]) {
      LeadingSpaceIsSpace(s[1..]);
    }
  }

  /** The number of trailing white-space characters. */
  function TrailingSpace(s: string): (k: nat)
    ensures k <= |s|
  {
    if |s| == 0 || !IsPyWhitespace(s[|s| - 1]) then 0 else 1 + TrailingSpace(s[..|s| - 1])
  }

  /** `TrailingSpace` counts exactly the white space after the last other character. */
  lemma {:induction false} TrailingSpaceIsSpace(s: string)
    ensures forall i :: |s| - TrailingSpace(s) <= i < |s| ==> IsPyWhitespace(s[i])
    ensures TrailingSpace(s) < |s| ==> !IsPyWhitespace(s[|s| - TrailingSpace(s) - 1])
  {
    if |s| > 0 && IsPyWhitespace(s[|s| - 1]) {
      TrailingSpaceIsSpace(s[..|s| - 1]);
    }
  }

  /** `s.strip()`. */
  function Strip(s: string): string
  {
    var t := s[LeadingSpace(s)..];
    t[..|t| - TrailingSpace(t)]
  }

  /** `strip()` keeps what lies between the leading and the trailing white
      space, and its result neither starts nor ends with white space. */
  lemma StripRemovesOuterSpace(s: string)
    ensures exists a, b :: (0 <= a <= b <= |s| && Strip(s) == s[a..b]
      && (forall i :: 0 <= i < a ==> IsPyWhitespace(s[i]))
      && (forall i :: b <= i < |s| ==> IsPyWhitespace(s[i])))
    ensures |Strip(s)| > 0 ==> !IsPyWhitespace(Strip(s)[0]) && !IsPyWhitespace(Strip(s)[|Strip(s)| - 1])
  {
    var a := LeadingSpace(s);
    var t := s[a..];
    var b := a + |t| - TrailingSpace(t);
    LeadingSpaceIsSpace(s);
    TrailingSpaceIsSpace(t);
    assert t[..|t| - TrailingSpace(t)] == s[a..b];
  }

  /** Stripping twice is stripping once. */
  lemma StripIdempotent(s: string)
    ensures Strip(Strip(s)) == Strip(s)
  {
    var r := Strip(s);
    StripRemovesOuterSpace(s);
    if |r| > 0 {
      assert LeadingSpace(r) == 0;
      assert TrailingSpace(r[0..]) == 0;
      assert r[0..] == r;
    }
  }

  /** `s.replace(pat, '')`: occurrences are removed left to right, without
      looking again at what the removal joins together. */
  function RemoveAll(s: string, pat: string): (r: string)
    requires |pat| > 0
    ensures |r| <= |s|
    decreases |s|
  {
    if |s| < |pat| then s
    else if s[..|pat|] == pat then RemoveAll(s[|pat|..], pat)
    else [s[0]] + RemoveAll(s[1..], pat)
  }

  /** Removing one character removes every occurrence of it. */
  lemma {:induction false} RemoveCharLeavesNone(s: string, c: char)
    ensures c !in RemoveAll(s, [c])
    ensures forall x :: x in RemoveAll(s, [c]) ==> x in s
    decreases |s|
  {
    if |s| >= 1 {
      if s[..1] == [c] {
        RemoveCharLeavesNone(s[1..], c);
      } else {
        RemoveCharLeavesNone(s[1..], c);
        assert s[0] != c;
      }
    }
  }

  /** `s` with every `c` left out and the other characters kept in order,
      defined from the end of the string. */
  function Without(s: string, c: char): (r: string)
    ensures c !in r
  {
    if |s| == 0 then []
    else Without(s[..|s| - 1], c) + (if s[|s| - 1] == c then [] else [s[|s| - 1]])
  }

  lemma {:induction false} WithoutAppend(a: string, b: string, c: char)
    ensures Without(a + b, c) == Without(a, c) + Without(b, c)
    decreases |b|
  {
    if |b| > 0 {
      var b' := b[..|b| - 1];
      assert (a + b)[..|a + b| - 1] == a + b';
      WithoutAppend(a, b', c);
    } else {
      assert a + b == a;
    }
  }

  /** Removing one character keeps all the others, in order: `s.replace(c, '')`
      is `s` filtered. */
  lemma {:induction false} RemoveCharKeepsOthers(s: string, c: char)
    ensures RemoveAll(s, [c]) == Without(s, c)
    decreases |s|
  {
    if |s| > 0 {
      RemoveCharKeepsOthers(s[1..], c);
      assert s == [s[0]] + s[1..];
      WithoutAppend([s[0]], s[1..], c);
      assert Without([s[0]], c) == (if s[0] == c then [] else [s[0]]) by {
        assert [s[0]][..0] == [];
      }
      assert s[..1] == [s[0]];
    }
  }

  /** `pat` occurs in `s` at position `i`. */
  predicate OccursAt(s: string, i: int, pat: string)
  {
    0 <= i && i + |pat| <= |s| && s[i..i + |pat|] == pat
  }

  /** A string that does not contain `pat` is left as it is. */
  lemma {:induction false} RemoveAbsent(s: string, pat: string)
    requires |pat| > 0
    requires forall i :: !OccursAt(s, i, pat)
    ensures RemoveAll(s, pat) == s
    decreases |s|
  {
    if |s| >= |pat| {
      assert !OccursAt(s, 0, pat);
      forall i ensures !OccursAt(s[1..], i, pat) {
        if OccursAt(s[1..], i, pat) {
          assert s[1..][i..i + |pat|] == s[i + 1..i + 1 + |pat|];
          assert OccursAt(s, i + 1, pat);
        }
      }
      RemoveAbsent(s[1..], pat);
    }
  }

  /** A leading `pat` is removed and the rest kept when `pat` does not occur
      again: `("GPA=" + t).replace("GPA=", '')` is `t`. */
  lemma RemoveLeading(pat: string, t: string)
    requires |pat| > 0
    requires forall i :: !OccursAt(t, i, pat)
    ensures RemoveAll(pat + t, pat) == t
  {
    var s := pat + t;
    assert s[..|pat|] == pat && s[|pat|..] == t;
    RemoveAbsent(t, pat);
  }

  /** One pass is not enough to clear a pattern that the removal itself forms:
      `"GPGPA=A=".replace("GPA=", "")` is `"GPA="`. */
  lemma RemovalCanFormThePattern()
    ensures RemoveAll("GPGPA=A=", "GPA=") == "GPA="
  {
    var s := "GPGPA=A=";
    assert s[..4][2] != "GPA="[2];
    assert s[1..][..4][0] != "GPA="[0];
    assert s[2..][..4] == "GPA=";
    assert s[2..][4..] == "A=";
    assert s[1..][..4] != "GPA=";
  }
}
