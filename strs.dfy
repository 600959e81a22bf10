/**
 * The string operations of Go's standard library that the generated builder and the
 * parameter renderer rely on: strings.Replace with a count of -1, and joining and
 * splitting on a separator character.
 */
module Strs {

  /** `pat` occurs in `s` starting at index `i`. */
  predicate OccursAt(s: string, i: nat, pat: string)
  {
    i + |pat| <= |s| && s[i..i + |pat|] == pat
  }

  predicate StartsWith(s: string, pat: string)
  {
    OccursAt(s, 0, pat)
  }

  /** `c` is nowhere in `s`. */
  predicate Lacks(s: string, c: char)
  {
    forall i :: 0 <= i < |s| ==> s[i] != c
  }

  /**
   * strings.Replace(s, pat, rep, -1): scans `s` from the left and replaces every
   * non-overlapping occurrence of `pat` by `rep`; text produced by a replacement is not
   * scanned again. The pattern is never empty in this model (it is always "{key}").
   */
  function ReplaceAll(s: string, pat: string, rep: string): (r: string)
    requires |pat| > 0
    decreases |s|
  {
    if |s| < |pat| then s
    else if StartsWith(s, pat) then rep + ReplaceAll(s[|pat|..], pat, rep)
    else [s[0]] + ReplaceAll(s[1..], pat, rep)
  }

  /** One step of the scan when `s` does not start with the pattern. */
  lemma {:induction false} ReplaceAllSkip(s: string, pat: string, rep: string)
    requires |pat| > 0 && |s| > 0 && !StartsWith(s, pat)
    ensures ReplaceAll(s, pat, rep) == [s[0]] + ReplaceAll(s[1..], pat, rep)
  {
    if |s| < |pat| {
      assert ReplaceAll(s[1..], pat, rep) == s[1..];
      assert s == [s[0]] + s[1..];
    }
  }

  /** A string without the pattern's first character is left unchanged. */
  lemma {:induction false} ReplaceAllAbsent(s: string, pat: string, rep: string)
    requires |pat| > 0 && Lacks(s, pat[0])
    ensures ReplaceAll(s, pat, rep) == s
    decreases |s|
  {
    if |s| > 0 {
      assert !StartsWith(s, pat) by {
        if |pat| <= |s| { assert s[..|pat|][0] == s[0]; }
      }
      ReplaceAllSkip(s, pat, rep);
      ReplaceAllAbsent(s[1..], pat, rep);
      assert s == [s[0]] + s[1..];
    }
  }

  /** Replacing a pattern by itself changes nothing. */
  lemma {:induction false} ReplaceAllSelf(s: string, pat: string)
    requires |pat| > 0
    ensures ReplaceAll(s, pat, pat) == s
    decreases |s|
  {
    if |s| < |pat| {
    } else if StartsWith(s, pat) {
      ReplaceAllSelf(s[|pat|..], pat);
      assert s == s[..|pat|] + s[|pat|..];
    } else {
      ReplaceAllSelf(s[1..], pat);
      assert s == [s[0]] + s[1..];
    }
  }

  /** The whole string is the pattern: it becomes the replacement. */
  lemma {:induction false} ReplaceAllExact(pat: string, rep: string)
    requires |pat| > 0
    ensures ReplaceAll(pat, pat, rep) == rep
  {
    assert pat[|pat|..] == [];
    assert pat[..|pat|] == pat;
  }

  /**
   * No occurrence of `pat` in `p + q` begins inside `p` and ends inside `q`.
   */
  predicate NoStraddle(p: string, q: string, pat: string)
  {
    forall i :: 0 <= i < |p| < i + |pat| ==> !OccursAt(p + q, i, pat)
  }

  /** Dropping a prefix of `p` keeps the boundary free of straddling occurrences. */
  lemma {:induction false} NoStraddleSuffix(p: string, q: string, pat: string, k: nat)
    requires NoStraddle(p, q, pat) && k <= |p|
    ensures NoStraddle(p[k..], q, pat)
  {
    var p' := p[k..];
    assert p + q == p[..k] + (p' + q);
    forall i | 0 <= i < |p'| < i + |pat|
      ensures !OccursAt(p' + q, i, pat)
    {
      if i + |pat| <= |p' + q| {
        assert (p' + q)[i..i + |pat|] == (p + q)[i + k..i + k + |pat|];
        assert !OccursAt(p + q, i + k, pat);
      }
    }
  }

  /**
   * Replacement distributes over a concatenation that no occurrence of the pattern
   * straddles.
   */
  lemma {:induction false} ReplaceAllConcat(p: string, q: string, pat: string, rep: string)
    requires |pat| > 0 && NoStraddle(p, q, pat)
    ensures ReplaceAll(p + q, pat, rep) == ReplaceAll(p, pat, rep) + ReplaceAll(q, pat, rep)
    decreases |p|
  {
    var s := p + q;
    if |p| == 0 {
      assert s == q;
    } else if |s| < |pat| {
    } else if StartsWith(s, pat) {
      assert OccursAt(s, 0, pat);
      assert |pat| <= |p|;
      assert p[..|pat|] == s[..|pat|];
      assert s[|pat|..] == p[|pat|..] + q;
      NoStraddleSuffix(p, q, pat, |pat|);
      ReplaceAllConcat(p[|pat|..], q, pat, rep);
    } else {
      assert s[1..] == p[1..] + q;
      NoStraddleSuffix(p, q, pat, 1);
      ReplaceAllConcat(p[1..], q, pat, rep);
      if |p| >= |pat| {
        assert p[..|pat|] == s[..|pat|];
      }
      ReplaceAllSkip(p, pat, rep);
      ReplaceAllSkip(s, pat, rep);
    }
  }

  /** strings.Join(parts, string(sep)). */
  function Join(parts: seq<string>, sep: char): (r: string)
  {
    if |parts| == 0 then ""
    else if |parts| == 1 then parts[0]
    else parts[0] + [sep] + Join(parts[1..], sep)
  }

  /** strings.Split(s, string(sep)): the pieces between separators, at least one. */
  function Split(s: string, sep: char): (r: seq<string>)
    decreases |s|
  {
    SplitFrom(s, sep, "")
  }

  /** Split, with `acc` the start of the current piece already read. */
  function SplitFrom(s: string, sep: char, acc: string): (r: seq<string>)
    ensures |r| > 0
    decreases |s|
  {
    if |s| == 0 then [acc]
    else if s[0] == sep then [acc] + SplitFrom(s[1..], sep, "")
    else SplitFrom(s[1..], sep, acc + [s[0]])
  }

  lemma {:induction false} SplitFromPiece(piece: string, rest: string, sep: char, acc: string)
    requires Lacks(piece, sep)
    ensures SplitFrom(piece + rest, sep, acc) == SplitFrom(rest, sep, acc + piece)
    decreases |piece|
  {
    if |piece| > 0 {
      assert (piece + rest)[1..] == piece[1..] + rest;
      SplitFromPiece(piece[1..], rest, sep, acc + [piece[0]]);
      assert acc + [piece[0]] + piece[1..] == acc + piece;
    } else {
      assert piece + rest == rest;
      assert acc + piece == acc;
    }
  }

  /** Splitting undoes joining when no part contains the separator. */
  lemma {:induction false} SplitJoin(parts: seq<string>, sep: char)
    requires |parts| > 0
    requires forall i :: 0 <= i < |parts| ==> Lacks(parts[i], sep)
    ensures Split(Join(parts, sep), sep) == parts
    decreases |parts|
  {
    if |parts| == 1 {
      SplitFromPiece(parts[0], "", sep, "");
      assert parts[0] + "" == parts[0];
      assert "" + parts[0] == parts[0];
      assert SplitFrom("", sep, parts[0]) == [parts[0]];
    } else {
      var tail := Join(parts[1..], sep);
      assert Join(parts, sep) == parts[0] + ([sep] + tail);
      SplitFromPiece(parts[0], [sep] + tail, sep, "");
      assert "" + parts[0] == parts[0];
      assert ([sep] + tail)[1..] == tail;
      assert SplitFrom([sep] + tail, sep, parts[0]) == [parts[0]] + SplitFrom(tail, sep, "");
      SplitJoin(parts[1..], sep);
      assert parts == [parts[0]] + parts[1..];
    }
  }

  /** Joining undoes splitting: no character of the input is lost. */
  lemma {:induction false} JoinSplitFrom(s: string, sep: char, acc: string)
    ensures Join(SplitFrom(s, sep, acc), sep) == acc + s
    decreases |s|
  {
    if |s| == 0 {
      assert acc + s == acc;
    } else if s[0] == sep {
      JoinSplitFrom(s[1..], sep, "");
      JoinSplitAtSep(s, sep, acc);
    } else {
      JoinSplitFrom(s[1..], sep, acc + [s[0]]);
      assert SplitFrom(s, sep, acc) == SplitFrom(s[1..], sep, acc + [s[0]]);
      assert s == [s[0]] + s[1..];
    }
  }

  /** The step of JoinSplitFrom at a separator. */
  lemma {:induction false} JoinSplitAtSep(s: string, sep: char, acc: string)
    requires |s| > 0 && s[0] == sep
    requires Join(SplitFrom(s[1..], sep, ""), sep) == "" + s[1..]
    ensures Join(SplitFrom(s, sep, acc), sep) == acc + s
  {
    var rest := SplitFrom(s[1..], sep, "");
    assert SplitFrom(s, sep, acc) == [acc] + rest;
    JoinCons(acc, rest, sep);
    assert Join(rest, sep) == s[1..] by {
      assert "" + s[1..] == s[1..];
    }
    calc {
      acc + [sep] + s[1..];
      acc + ([sep] + s[1..]);
      { assert s == [sep] + s[1..]; }
      acc + s;
    }
  }

  /** Join of a first part followed by further parts. */
  lemma {:induction false} JoinCons(first: string, rest: seq<string>, sep: char)
    requires |rest| > 0
    ensures Join([first] + rest, sep) == first + [sep] + Join(rest, sep)
  {
    assert ([first] + rest)[1..] == rest;
  }

  /** A join is at least as long as its first part. */
  lemma {:induction false} JoinHead(parts: seq<string>, sep: char)
    requires |parts| > 0
    ensures |Join(parts, sep)| >= |parts[0]|
  {
  }

  lemma {:induction false} JoinSplit(s: string, sep: char)
    ensures Join(Split(s, sep), sep) == s
  {
    JoinSplitFrom(s, sep, "");
    assert "" + s == s;
  }
}
