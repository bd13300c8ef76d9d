/** Splitting strings at a separator and joining them again. */
module Strings {
  /** The pieces of `s` between the occurrences of `c`. */
  function SplitOn(s: string, c: char): (r: seq<string>)
    ensures r != []
  {
    if s == "" then [""]
    else
      var rest := SplitOn(s[1..], c);
      if s[0] == c then [""] + rest else [[s[0]] + rest[0]] + rest[1..]
  }

  function Join(pieces: seq<string>, c: char): string
    requires pieces != []
  {
    if |pieces| == 1 then pieces[0] else pieces[0] + [c] + Join(pieces[1..], c)
  }

  /** The pieces are what stands between the separators: none holds one, and joined they give the string back. */
  lemma {:induction false} SplitJoins(s: string, c: char)
    ensures Join(SplitOn(s, c), c) == s && forall piece <- SplitOn(s, c) :: c !in piece
  {
    if s != "" {
      var rest := SplitOn(s[1..], c);
      SplitJoins(s[1..], c);
      assert s == [s[0]] + s[1..];
      if s[0] == c {
        assert ([""] + rest)[1..] == rest;
        assert "" + [c] + Join(rest, c) == s;
      } else {
        var first := [s[0]] + rest[0];
        assert ([first] + rest[1..])[1..] == rest[1..];
        assert rest[0] in rest;
        if |rest| > 1 { assert first + [c] + Join(rest[1..], c) == [s[0]] + (rest[0] + [c] + Join(rest[1..], c)); }
      }
    }
  }

  /** Joined pieces that hold no separator split back into themselves. */
  lemma {:induction false} JoinSplits(pieces: seq<string>, c: char)
    requires pieces != [] && forall piece <- pieces :: c !in piece
    ensures SplitOn(Join(pieces, c), c) == pieces
  {
    assert pieces[0] in pieces;
    if |pieces| == 1 {
      SplitWhole(pieces[0], c);
      assert pieces == [pieces[0]];
    } else {
      JoinSplits(pieces[1..], c);
      SplitFirst(pieces[0], Join(pieces[1..], c), c);
      assert pieces == [pieces[0]] + pieces[1..];
    }
  }

  lemma {:induction false} SplitWhole(s: string, c: char)
    requires c !in s
    ensures SplitOn(s, c) == [s]
  {
    if s != "" {
      assert s[0] in s;
      SplitWhole(s[1..], c);
      assert s == [s[0]] + s[1..];
    }
  }

  lemma {:induction false} SplitFirst(s: string, rest: string, c: char)
    requires c !in s
    ensures SplitOn(s + [c] + rest, c) == [s] + SplitOn(rest, c)
  {
    if s == "" {
      assert (s + [c] + rest)[1..] == rest;
    } else {
      assert s[0] in s;
      SplitFirst(s[1..], rest, c);
      assert (s + [c] + rest)[1..] == s[1..] + [c] + rest;
      assert s == [s[0]] + s[1..];
    }
  }

  // ---- Whole words ------------------------------------------------------

  /** `w` stands at `i` in `s`, between separators or ends. */
  predicate WordAt(s: string, separator: char, w: string, i: nat) {
    && i + |w| <= |s| && s[i..i + |w|] == w && (i == 0 || s[i - 1] == separator)
    && (i + |w| == |s| || s[i + |w|] == separator)
  }

  ghost predicate HasWord(s: string, separator: char, w: string) { exists i: nat :: WordAt(s, separator, w, i) }

  lemma WordInTail(s: string, separator: char, w: string, i: nat)
    requires s != "" && separator !in w && i > 0
    ensures WordAt(s, separator, w, i) <==> WordAt(s[1..], separator, w, i - 1) && (i > 1 || s[0] == separator)
  {
    assert i + |w| <= |s| ==> s[i..i + |w|] == s[1..][i - 1..i - 1 + |w|];
  }

  lemma {:induction false} FirstPiece(s: string, separator: char, w: string)
    requires separator !in w
    ensures SplitOn(s, separator)[0] == w <==> WordAt(s, separator, w, 0)
  {
    if s != "" {
      if s[0] == separator {
        assert w != "" ==> w[0] in w;
        assert w != "" && |w| <= |s| ==> s[0..|w|][0] == s[0];
      } else if w != "" {
        FirstPiece(s[1..], separator, w[1..]);
        assert w == [w[0]] + w[1..];
        assert |w| <= |s| ==> s[..|w|] == [s[0]] + s[1..][..|w| - 1];
      }
    }
  }

  lemma {:induction false} LaterPiece(s: string, separator: char, w: string)
    requires separator !in w
    ensures w in SplitOn(s, separator)[1..] <==> exists i: nat :: i > 0 && WordAt(s, separator, w, i)
  {
    if s != "" {
      var rest := SplitOn(s[1..], separator);
      FirstPiece(s[1..], separator, w);
      LaterPiece(s[1..], separator, w);
      assert forall i: nat | i > 0 :: WordAt(s, separator, w, i) <==>
        WordAt(s[1..], separator, w, i - 1) && (i > 1 || s[0] == separator) by {
        forall i: nat | i > 0 { WordInTail(s, separator, w, i); }
      }
      assert w in rest <==> w == rest[0] || w in rest[1..];
      if i: nat :| WordAt(s[1..], separator, w, i) && (i > 0 || s[0] == separator) {
        assert WordAt(s, separator, w, i + 1);
      }
    }
  }

  /** The pieces of a split string are the words without the separator between separators or ends. */
  lemma PieceExactly(s: string, separator: char, w: string)
    requires separator !in w
    ensures w in SplitOn(s, separator) <==> HasWord(s, separator, w)
  {
    FirstPiece(s, separator, w);
    LaterPiece(s, separator, w);
    var pieces := SplitOn(s, separator);
    assert w in pieces <==> w == pieces[0] || w in pieces[1..];
    hide WordAt, SplitOn;
  }
}
