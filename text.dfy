/**
 * The two string operations of Go's `strings` package the program relies on:
 * `strings.ReplaceAll(s, pat, "")` and `strings.Split(s, sep)` with a one-character separator.
 */
module Text {

  /** `pat` occurs in `s` at index `i`. */
  predicate OccursAt(pat: string, s: string, i: int)
  {
    0 <= i && i + |pat| <= |s| && s[i..i + |pat|] == pat
  }

  predicate Occurs(pat: string, s: string)
  {
    exists i :: 0 <= i <= |s| && OccursAt(pat, s, i)
  }

  /** No proper suffix of `pat` is also a prefix of it, so two occurrences never overlap. */
  predicate BorderFree(pat: string)
  {
    forall k :: 0 < k < |pat| ==> pat[k..] != pat[..|pat| - k]
  }

  /**
   * `strings.ReplaceAll(s, pat, "")`: one left-to-right pass that drops each leftmost,
   * non-overlapping occurrence of `pat`.
   */
  function RemoveAll(s: string, pat: string): (r: string)
    requires |pat| > 0
    ensures |r| <= |s|
    decreases |s|
  {
    if |s| == 0 then ""
    else if pat <= s then RemoveAll(s[|pat|..], pat)
    else [s[0]] + RemoveAll(s[1..], pat)
  }

  /** A string without the pattern passes through unchanged. */
  lemma {:induction false} RemoveAllUnchanged(s: string, pat: string)
    requires |pat| > 0 && !Occurs(pat, s)
    ensures RemoveAll(s, pat) == s
    decreases |s|
  {
    if |s| > 0 {
      assert pat <= s ==> OccursAt(pat, s, 0);
      forall i | OccursAt(pat, s[1..], i) ensures OccursAt(pat, s, i + 1) {
        assert s[1..][i..i + |pat|] == s[i + 1..i + 1 + |pat|];
      }
      RemoveAllUnchanged(s[1..], pat);
    }
  }

  /**
   * Every occurrence is removed, wherever it stands: for a border-free pattern, removing
   * from `s + pat + t` is removing from `s` and from `t` separately.
   */
  lemma {:induction false} RemoveAllSplit(s: string, t: string, pat: string)
    requires |pat| > 0 && BorderFree(pat)
    ensures RemoveAll(s + pat + t, pat) == RemoveAll(s, pat) + RemoveAll(t, pat)
    decreases |s|
  {
    var u := s + pat + t;
    if |s| == 0 {
      assert u == pat + t;
      assert u[|pat|..] == t;
    } else {
      if |s| < |pat| {
        NoOccurrenceAcross(s, t, pat);
      }
      if pat <= u {
        assert s[..|pat|] == u[..|pat|];
        assert u[|pat|..] == s[|pat|..] + pat + t;
        RemoveAllSplit(s[|pat|..], t, pat);
      } else {
        assert u[1..] == s[1..] + pat + t;
        RemoveAllSplit(s[1..], t, pat);
      }
    }
  }

  /** An occurrence of a border-free pattern cannot start inside a shorter prefix and run into a later occurrence. */
  lemma NoOccurrenceAcross(s: string, t: string, pat: string)
    requires BorderFree(pat) && 0 < |s| < |pat|
    ensures !(pat <= s + pat + t)
  {
    var u := s + pat + t;
    var k := |s|;
    var tail, window := pat[k..], u[k..|pat|];
    assert window == pat[..|pat| - k];
    assert tail != window;
    assert pat <= u ==> tail == window;
  }

  /** One pass only: a removal can join two halves into a fresh occurrence. */
  lemma RemoveAllIsSinglePass()
    ensures RemoveAll("hthttp://tp://", "http://") == "http://"
  {
    var pat := "http://";
    var s0, s1, s2 := "hthttp://tp://", "thttp://tp://", "http://tp://";
    SinglePassTail();
    assert s1[1..] == s2;
    assert !(pat <= s1) by {
      assert s1[0] != pat[0];
    }
    assert RemoveAll(s1, pat) == "ttp://";
    assert s0[1..] == s1;
    assert !(pat <= s0) by {
      assert s0[2] != pat[2];
    }
  }

  lemma SinglePassTail()
    ensures RemoveAll("http://tp://", "http://") == "tp://"
  {
    var pat, s2, s3 := "http://", "http://tp://", "tp://";
    assert RemoveAll(s3, pat) == s3 by {
      assert !Occurs(pat, s3);
      RemoveAllUnchanged(s3, pat);
    }
    assert s2[..7] == pat && s2[7..] == s3;
  }

  /** With a one-character pattern none of that character survives. */
  lemma {:induction false} RemoveCharGone(s: string, c: char)
    ensures c !in RemoveAll(s, [c])
    decreases |s|
  {
    if |s| > 0 {
      RemoveCharGone(s[1..], c);
    }
  }

  /** With a one-character pattern every other character survives, in order. */
  lemma {:induction false} RemoveCharKeeps(s: string, c: char)
    requires c !in s
    ensures RemoveAll(s, [c]) == s
  {
    forall i | 0 <= i && i + 1 <= |s| ensures !OccursAt([c], s, i) {
      assert s[i..i + 1][0] == s[i];
    }
    RemoveAllUnchanged(s, [c]);
  }

  /** Go's `strings.Split(s, [sep])`: the pieces between separators, at least one of them. */
  function Split(s: string, sep: char): (parts: seq<string>)
    ensures |parts| >= 1
    ensures forall i :: 0 <= i < |parts| ==> sep !in parts[i]
    decreases |s|
  {
    if |s| == 0 then [""]
    else
      var rest := Split(s[1..], sep);
      if s[0] == sep then [""] + rest
      else [[s[0]] + rest[0]] + rest[1..]
  }

  /** The pieces put back together with the separator between them. */
  function Join(parts: seq<string>, sep: char): (joined: string)
    requires |parts| >= 1
    decreases |parts|
  {
    if |parts| == 1 then parts[0] else parts[0] + [sep] + Join(parts[1..], sep)
  }

  /** Splitting loses nothing: joining the pieces gives the string back. */
  lemma {:induction false} JoinSplit(s: string, sep: char)
    ensures Join(Split(s, sep), sep) == s
    decreases |s|
  {
    if |s| > 0 {
      var rest := Split(s[1..], sep);
      JoinSplit(s[1..], sep);
      if s[0] == sep {
        assert ([""] + rest)[1..] == rest;
      } else if |rest| > 1 {
        var parts := [[s[0]] + rest[0]] + rest[1..];
        assert parts[1..] == rest[1..];
      }
    }
  }
}
