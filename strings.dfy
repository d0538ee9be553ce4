/** The JavaScript string operations the modelled code uses, with the
    properties of them that the other modules rely on. */
module Strings {

  predicate StartsWith(s: string, prefix: string) {
    |prefix| <= |s| && s[..|prefix|] == prefix
  }

  predicate EndsWith(s: string, suffix: string) {
    |suffix| <= |s| && s[|s| - |suffix|..] == suffix
  }

  /** `w` occurs in `s` starting at index `i`. */
  predicate OccursAt(s: string, w: string, i: int) {
    0 <= i && i + |w| <= |s| && s[i..i + |w|] == w
  }

  ghost predicate NoOccurrence(s: string, w: string) {
    forall i :: !OccursAt(s, w, i)
  }

  /** `String.prototype.split` with a non-empty string separator: the pieces
      between the leftmost non-overlapping occurrences of `sep`. */
  function Split(s: string, sep: string): (r: seq<string>)
    requires |sep| > 0
    ensures |r| >= 1
    decreases |s|
  {
    if |s| < |sep| then [s]
    else if s[..|sep|] == sep then [""] + Split(s[|sep|..], sep)
    else
      var rest := Split(s[1..], sep);
      [[s[0]] + rest[0]] + rest[1..]
  }

  /** `Array.prototype.join`. */
  function Join(xs: seq<string>, sep: string): string {
    if |xs| == 0 then ""
    else if |xs| == 1 then xs[0]
    else xs[0] + sep + Join(xs[1..], sep)
  }

  /** `s.replace(/from/g, to)` (equivalently `s.replaceAll(from, to)`):
      every leftmost non-overlapping occurrence of `from` is replaced, scanning
      left to right. */
  function ReplaceAll(s: string, from: string, to: string): string
    requires |from| > 0
    decreases |s|
  {
    if |s| < |from| then s
    else if s[..|from|] == from then to + ReplaceAll(s[|from|..], from, to)
    else [s[0]] + ReplaceAll(s[1..], from, to)
  }

  /** The last piece of `s.split(sep)`, i.e. `s.split(sep).pop()`. */
  function LastPiece(s: string, sep: string): string
    requires |sep| > 0
  {
    var pieces := Split(s, sep);
    pieces[|pieces| - 1]
  }

  // ---------------------------------------------------------------------
  // Split and Join with a one-character separator

  lemma {:induction false} SplitWithoutSeparator(a: string, c: char)
    requires c !in a
    ensures Split(a, [c]) == [a]
    decreases |a|
  {
    if |a| >= 1 {
      assert a[..1] != [c] by { assert a[..1][0] == a[0]; }
      SplitWithoutSeparator(a[1..], c);
      assert [a[0]] + a[1..] == a;
    }
  }

  lemma {:induction false} SplitAfterPiece(a: string, c: char, t: string)
    requires c !in a
    ensures Split(a + [c] + t, [c]) == [a] + Split(t, [c])
    decreases |a|
  {
    var s := a + [c] + t;
    if |a| == 0 {
      assert s[..1] == [c];
      assert s[1..] == t;
    } else {
      assert s[0] == a[0];
      assert s[..1] != [c] by { assert s[..1][0] == a[0]; }
      assert s[1..] == a[1..] + [c] + t;
      SplitAfterPiece(a[1..], c, t);
      assert [a[0]] + a[1..] == a;
    }
  }

  /** Splitting a join gives back the pieces, provided none of them holds the
      separator. */
  lemma {:induction false} SplitJoin(xs: seq<string>, c: char)
    requires |xs| >= 1
    requires forall i :: 0 <= i < |xs| ==> c !in xs[i]
    ensures Split(Join(xs, [c]), [c]) == xs
    decreases |xs|
  {
    if |xs| == 1 {
      SplitWithoutSeparator(xs[0], c);
    } else {
      SplitJoin(xs[1..], c);
      SplitAfterPiece(xs[0], c, Join(xs[1..], [c]));
      assert [xs[0]] + xs[1..] == xs;
    }
  }

  lemma JoinConsHead(x: char, a: string, rest: seq<string>, sep: string)
    ensures Join([[x] + a] + rest, sep) == [x] + Join([a] + rest, sep)
  {
    if |rest| > 0 {
      assert ([[x] + a] + rest)[1..] == rest;
      assert ([a] + rest)[1..] == rest;
    }
  }

  /** A split that starts at a separator joins back with the separator in
      front. */
  lemma JoinSplitAtSeparator(sep: string, t: string)
    requires |sep| > 0 && Join(Split(t, sep), sep) == t
    ensures Join(Split(sep + t, sep), sep) == sep + t
  {
    var s := sep + t;
    assert s[..|sep|] == sep;
    assert s[|sep|..] == t;
    var rest := Split(t, sep);
    assert Split(s, sep) == [""] + rest;
    JoinEmptyHead(rest, sep);
  }

  lemma JoinEmptyHead(rest: seq<string>, sep: string)
    requires |rest| >= 1
    ensures Join([""] + rest, sep) == sep + Join(rest, sep)
  {
    assert ([""] + rest)[1..] == rest;
  }

  /** A split that starts at another character joins back with that
      character in front. */
  lemma JoinSplitAtChar(s: string, sep: string)
    requires |sep| > 0 && |sep| <= |s| && s[..|sep|] != sep
    requires Join(Split(s[1..], sep), sep) == s[1..]
    ensures Join(Split(s, sep), sep) == s
  {
    var rest := Split(s[1..], sep);
    JoinConsHead(s[0], rest[0], rest[1..], sep);
    assert [rest[0]] + rest[1..] == rest;
    assert [s[0]] + s[1..] == s;
  }

  /** Joining the pieces of a split gives back the string. */
  lemma {:induction false} JoinSplit(s: string, sep: string)
    requires |sep| > 0
    ensures Join(Split(s, sep), sep) == s
    decreases |s|
  {
    if |s| < |sep| {
    } else if s[..|sep|] == sep {
      JoinSplit(s[|sep|..], sep);
      JoinSplitAtSeparator(sep, s[|sep|..]);
      assert s == sep + s[|sep|..];
    } else {
      JoinSplit(s[1..], sep);
      JoinSplitAtChar(s, sep);
    }
  }


  /** The separator occurs in `s` exactly when the split has more than one piece. */
  lemma {:induction false} SplitHasPieces(s: string, c: char)
    ensures c in s <==> |Split(s, [c])| > 1
    decreases |s|
  {
    if |s| >= 1 {
      SplitHasPieces(s[1..], c);
      assert s[..1] == [s[0]];
      assert s == [s[0]] + s[1..];
    }
  }

  /** The first piece of a split is the text before the first separator. */
  lemma {:induction false} FirstPieceOf(s: string, c: char)
    ensures var p := Split(s, [c])[0];
      c !in p && |p| <= |s| && s[..|p|] == p && (|p| < |s| ==> s[|p|] == c)
    decreases |s|
  {
    if |s| >= 1 {
      assert s[..1] == [s[0]];
      if s[0] != c {
        FirstPieceOf(s[1..], c);
        var rest := Split(s[1..], [c]);
        assert s[..|rest[0]| + 1] == [s[0]] + s[1..][..|rest[0]|];
      }
    }
  }

  /** A text without the separator, followed by the end or by a separator, is the first piece. */
  lemma FirstPieceIs(a: string, t: string, c: char)
    requires c !in a
    requires t == [] || t[0] == c
    ensures Split(a + t, [c])[0] == a
  {
    if t == [] {
      assert a + t == a;
      SplitWithoutSeparator(a, c);
    } else {
      assert a + t == a + [c] + t[1..];
      SplitAfterPiece(a, c, t[1..]);
    }
  }

  /** A suffix of the tail is a suffix of the whole. */
  lemma EndsWithOfTail(s: string, w: string)
    requires |s| >= 1 && EndsWith(s[1..], w)
    ensures EndsWith(s, w)
  {
    assert s[|s| - |w|..] == s[1..][|s| - 1 - |w|..];
  }

  /** A leading separator does not affect the last piece. */
  lemma LastPieceAfterLeadingSeparator(s: string, c: char)
    requires |s| >= 1 && s[0] == c
    ensures LastPiece(s, [c]) == LastPiece(s[1..], [c])
  {
    assert s[..1] == [c];
  }

  /** A leading character other than the separator is part of the first
      piece, which is the last one only when no separator follows. */
  lemma LastPieceAfterLeadingChar(s: string, c: char)
    requires |s| >= 1 && s[0] != c
    ensures LastPiece(s, [c]) == if c in s[1..] then LastPiece(s[1..], [c]) else s
  {
    assert s[..1] != [c] by { assert s[..1][0] == s[0]; }
    SplitHasPieces(s[1..], c);
    var rest := Split(s[1..], [c]);
    assert Split(s, [c]) == [[s[0]] + rest[0]] + rest[1..];
    if c !in s[1..] {
      SplitWithoutSeparator(s[1..], c);
      assert [s[0]] + s[1..] == s;
    }
  }

  /** The last piece of a split is the text after the last separator. */
  lemma {:induction false} LastPieceOf(s: string, c: char)
    ensures var l := LastPiece(s, [c]);
      c !in l && EndsWith(s, l) && (c in s ==> EndsWith(s, [c] + l))
    decreases |s|
  {
    if |s| >= 1 {
      var t := s[1..];
      LastPieceOf(t, c);
      var l := LastPiece(s, [c]);
      assert s == [s[0]] + t;
      if s[0] == c {
        LastPieceAfterLeadingSeparator(s, c);
        EndsWithOfTail(s, l);
        if c in t {
          EndsWithOfTail(s, [c] + l);
        } else {
          SplitWithoutSeparator(t, c);
          assert s == [c] + l;
        }
      } else {
        LastPieceAfterLeadingChar(s, c);
        if c in t {
          EndsWithOfTail(s, l);
          EndsWithOfTail(s, [c] + l);
        }
      }
    }
  }

  /** Everything up to a separator does not affect the last piece. */
  lemma {:induction false} LastPieceAfterSeparator(x: string, c: char, t: string)
    ensures LastPiece(x + [c] + t, [c]) == LastPiece(t, [c])
    decreases |x|
  {
    var s := x + [c] + t;
    assert s[..1] == [s[0]];
    if |x| == 0 {
      assert s == [c] + t;
      assert s[1..] == t;
    } else {
      assert s[1..] == x[1..] + [c] + t;
      LastPieceAfterSeparator(x[1..], c, t);
      if x[0] != c {
        SplitHasPieces(s[1..], c);
      }
    }
  }

  /** A one-character word that never occurs is a character not in the text. */
  lemma NoOccurrenceOfChar(s: string, c: char)
    requires NoOccurrence(s, [c])
    ensures c !in s
  {
    forall i | 0 <= i < |s|
      ensures s[i] != c
    {
      assert !OccursAt(s, [c], i);
      assert s[i..i + 1] == [s[i]];
    }
  }

  // ---------------------------------------------------------------------
  // ReplaceAll

  /** Replacing every occurrence is splitting on it and joining with the
      replacement (the JavaScript identity `s.replace(/x/g, y) == s.split(x).join(y)`). */
  lemma {:induction false} ReplaceAllIsSplitJoin(s: string, from: string, to: string)
    requires |from| > 0
    ensures ReplaceAll(s, from, to) == Join(Split(s, from), to)
    decreases |s|
  {
    if |s| < |from| {
    } else if s[..|from|] == from {
      ReplaceAllIsSplitJoin(s[|from|..], from, to);
      var rest := Split(s[|from|..], from);
      assert ([""] + rest)[1..] == rest;
    } else {
      ReplaceAllIsSplitJoin(s[1..], from, to);
      var rest := Split(s[1..], from);
      JoinConsHead(s[0], rest[0], rest[1..], to);
      assert [rest[0]] + rest[1..] == rest;
    }
  }

  /** A string without occurrences of `from` is left as it is. */
  lemma {:induction false} ReplaceAllWithoutOccurrence(s: string, from: string, to: string)
    requires |from| > 0
    requires NoOccurrence(s, from)
    ensures ReplaceAll(s, from, to) == s
    decreases |s|
  {
    if |s| >= |from| {
      assert !OccursAt(s, from, 0);
      forall i ensures !OccursAt(s[1..], from, i) {
        if OccursAt(s[1..], from, i) {
          assert s[1..][i..i + |from|] == s[i + 1..i + 1 + |from|];
          assert OccursAt(s, from, i + 1);
        }
      }
      ReplaceAllWithoutOccurrence(s[1..], from, to);
      assert [s[0]] + s[1..] == s;
    }
  }

  /** If the result of a replacement starts with `u`, and the replacement text
      cannot start inside `u`, the input already started with `u`. */
  lemma {:induction false} PrefixBeforeReplacement(t: string, from: string, to: string, u: string)
    requires |from| > 0 && |to| > 0
    requires to[0] !in u
    ensures StartsWith(ReplaceAll(t, from, to), u) ==> StartsWith(t, u)
    decreases |t|
  {
    var r := ReplaceAll(t, from, to);
    if |u| == 0 || |t| < |from| {
    } else if t[..|from|] == from {
      assert r[0] == to[0] != u[0];
      assert !StartsWith(r, u) by {
        if |u| <= |r| { assert r[..|u|][0] == r[0]; }
      }
    } else {
      var r' := ReplaceAll(t[1..], from, to);
      assert r == [t[0]] + r';
      PrefixBeforeReplacement(t[1..], from, to, u[1..]);
      if StartsWith(r, u) {
        assert u[0] == r[..|u|][0] == t[0];
        assert r'[..|u| - 1] == r[1..|u|];
        assert u[1..] == r[..|u|][1..];
        assert t[..|u|] == [t[0]] + t[1..][..|u| - 1];
      }
    }
  }

  /** An occurrence of `w` at the front of `[s[0]] + ReplaceAll(s[1..])` is
      already at the front of `s`, when the replacement text cannot start
      inside `w[1..]`. */
  lemma FrontOccurrence(s: string, r: string, r': string, w: string, from: string, to: string)
    requires |s| >= 1 && |w| > 0 && |from| > 0 && |to| > 0
    requires r == [s[0]] + r' && r' == ReplaceAll(s[1..], from, to)
    requires to[0] !in w[1..]
    ensures OccursAt(r, w, 0) ==> OccursAt(s, w, 0)
  {
    PrefixBeforeReplacement(s[1..], from, to, w[1..]);
    if OccursAt(r, w, 0) {
      assert r[0] == r[..|w|][0] == w[0];
      assert r'[..|w| - 1] == r[1..|w|] == w[1..];
      assert s[..|w|] == [s[0]] + s[1..][..|w| - 1];
    }
  }

  /** Shifting an occurrence: `w` occurs in `p + x` at `i + |p|` iff it occurs in `x` at `i`. */
  lemma OccursAfterPrefix(p: string, x: string, w: string, i: int)
    requires i >= 0
    ensures OccursAt(p + x, w, i + |p|) <==> OccursAt(x, w, i)
  {
    if i + |p| + |w| <= |p + x| {
      assert (p + x)[i + |p|..i + |p| + |w|] == x[i..i + |w|];
    }
  }

  /** After `ReplaceAll(s, from, to)` no occurrence of `from` is left, for a
      pair where the replacement cannot recreate `from`. */
  lemma {:induction false} ReplaceAllRemovesAll(s: string, from: string, to: string)
    requires |from| > 0 && |to| > 0
    requires from[0] !in to
    requires to[0] !in from[1..]
    ensures NoOccurrence(ReplaceAll(s, from, to), from)
    decreases |s|
  {
    var r := ReplaceAll(s, from, to);
    if |s| < |from| {
      assert r == s;
    } else if s[..|from|] == from {
      var r' := ReplaceAll(s[|from|..], from, to);
      ReplaceAllRemovesAll(s[|from|..], from, to);
      forall i ensures !OccursAt(r, from, i) {
        if 0 <= i < |to| {
          if i + |from| <= |r| { assert r[i..i + |from|][0] == r[i] == to[i] != from[0]; }
        } else if i >= |to| {
          OccursAfterPrefix(to, r', from, i - |to|);
        }
      }
    } else {
      var r' := ReplaceAll(s[1..], from, to);
      ReplaceAllRemovesAll(s[1..], from, to);
      forall i ensures !OccursAt(r, from, i) {
        if i == 0 {
          FrontOccurrence(s, r, r', from, from, to);
        } else if i > 0 {
          OccursAfterPrefix([s[0]], r', from, i - 1);
        }
      }
    }
  }

  /** `w` occurs nowhere in a suffix of a string in which it occurs nowhere. */
  lemma NoOccurrenceInSuffix(s: string, w: string, k: nat)
    requires k <= |s|
    requires NoOccurrence(s, w)
    ensures NoOccurrence(s[k..], w)
  {
    forall i ensures !OccursAt(s[k..], w, i) {
      if i >= 0 {
        OccursAfterPrefix(s[..k], s[k..], w, i);
        assert s[..k] + s[k..] == s;
      }
    }
  }

  /** Replacing `from` by `to` does not create an occurrence of a word `w`
      whose first letter is not in `to`, when `to`'s first letter does not
      occur in `w` after its own first letter. */
  lemma {:induction false} ReplaceAllKeepsAbsent(s: string, from: string, to: string, w: string)
    requires |from| > 0 && |to| > 0 && |w| > 0
    requires w[0] !in to
    requires to[0] !in w[1..]
    requires NoOccurrence(s, w)
    ensures NoOccurrence(ReplaceAll(s, from, to), w)
    decreases |s|
  {
    var r := ReplaceAll(s, from, to);
    if |s| < |from| {
      assert r == s;
    } else if s[..|from|] == from {
      var r' := ReplaceAll(s[|from|..], from, to);
      NoOccurrenceInSuffix(s, w, |from|);
      ReplaceAllKeepsAbsent(s[|from|..], from, to, w);
      forall i ensures !OccursAt(r, w, i) {
        if 0 <= i < |to| {
          if i + |w| <= |r| { assert r[i..i + |w|][0] == r[i] == to[i] != w[0]; }
        } else if i >= |to| {
          OccursAfterPrefix(to, r', w, i - |to|);
        }
      }
    } else {
      var r' := ReplaceAll(s[1..], from, to);
      NoOccurrenceInSuffix(s, w, 1);
      ReplaceAllKeepsAbsent(s[1..], from, to, w);
      forall i ensures !OccursAt(r, w, i) {
        if i == 0 {
          FrontOccurrence(s, r, r', w, from, to);
        } else if i > 0 {
          OccursAfterPrefix([s[0]], r', w, i - 1);
        }
      }
    }
  }
}
