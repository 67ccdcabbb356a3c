/** String operations of the platform that several components rely on. */
module Strings {

  function Concat<T>(parts: seq<seq<T>>): seq<T> {
    if parts == [] then [] else Concat(parts[..|parts| - 1]) + parts[|parts| - 1]
  }

  lemma ConcatAppend<T>(parts: seq<seq<T>>, p: seq<T>)
    ensures Concat(parts + [p]) == Concat(parts) + p
  {
    assert (parts + [p])[..|parts|] == parts;
  }

  /** String.replace: leftmost occurrences first, none overlapping; an empty target stands
      before every character and at the end. */
  function Replace(s: string, target: string, replacement: string): string {
    if target == "" then
      if s == "" then replacement else replacement + [s[0]] + Replace(s[1..], target, replacement)
    else if |s| < |target| then s
    else if s[..|target|] == target then replacement + Replace(s[|target|..], target, replacement)
    else [s[0]] + Replace(s[1..], target, replacement)
  }

  function Join(parts: seq<string>, separator: string): string {
    if parts == [] then ""
    else if |parts| == 1 then parts[0]
    else Join(parts[..|parts| - 1], separator) + separator + parts[|parts| - 1]
  }

  lemma JoinGrows(parts: seq<string>, separator: string, i: nat)
    requires 0 < i <= |parts|
    ensures Join(parts[..i], separator) ==
            Join(parts[..i - 1], separator) + (if i > 1 then separator else "") + parts[i - 1]
  {
    assert parts[..i][..i - 1] == parts[..i - 1];
  }

  /** What stands between the occurrences of a character, empty pieces included. */
  function Pieces(s: string, c: char): (r: seq<string>)
    ensures r != []
  {
    if s == "" then [""] else NextPieces(Pieces(s[..|s| - 1], c), c, s[|s| - 1])
  }

  function NextPieces(pieces: seq<string>, c: char, d: char): (r: seq<string>)
    requires pieces != []
    ensures r != []
  {
    if d == c then pieces + [""] else pieces[..|pieces| - 1] + [pieces[|pieces| - 1] + [d]]
  }

  lemma PiecesGrow(s: string, c: char, d: char)
    ensures Pieces(s + [d], c) == NextPieces(Pieces(s, c), c, d)
  {
    assert (s + [d])[..|s + [d]| - 1] == s;
  }

  lemma PiecesOfNothing(c: char)
    ensures Pieces("", c) == [""]
  {
  }

  lemma {:induction false} OnePiece(s: string, c: char)
    requires c !in s
    ensures Pieces(s, c) == [s]
    decreases |s|
  {
    hide Pieces;
    PiecesOfNothing(c);
    if s != "" {
      var init, d := s[..|s| - 1], s[|s| - 1];
      assert init + [d] == s && d in s;
      OnePiece(init, c);
      PiecesGrow(init, c, d);
      assert [init][..0] == [];
    }
  }

  lemma {:induction false} PiecesAcross(a: string, c: char, b: string)
    ensures Pieces(a + [c] + b, c) == Pieces(a, c) + Pieces(b, c)
    decreases |b|
  {
    hide Pieces;
    if b == "" {
      PiecesGrow(a, c, c);
      PiecesOfNothing(c);
      assert a + [c] + b == a + [c];
    } else {
      var init, d := b[..|b| - 1], b[|b| - 1];
      PiecesAcross(a, c, init);
      PiecesGrow(a + [c] + init, c, d);
      PiecesGrow(init, c, d);
      assert a + [c] + b == a + [c] + init + [d] && b == init + [d];
      var f := Pieces(a, c) + Pieces(init, c);
      assert f[..|f| - 1] == Pieces(a, c) + Pieces(init, c)[..|Pieces(init, c)| - 1];
    }
  }

  lemma {:induction false} PiecesAreFree(s: string, c: char)
    ensures forall f :: f in Pieces(s, c) ==> c !in f
    decreases |s|
  {
    if s != "" { PiecesAreFree(s[..|s| - 1], c); }
  }

  lemma JoinOfOne(s: string, separator: string)
    ensures Join([s], separator) == s
  {
  }

  /** Joining the pieces with the character gives the string back. */
  lemma {:induction false} JoinOfPieces(s: string, c: char)
    ensures Join(Pieces(s, c), [c]) == s
    decreases |s|
  {
    hide Join, Pieces, NextPieces;
    if s == "" {
      PiecesOfNothing(c);
      JoinOfOne("", [c]);
    } else {
      var init, d := s[..|s| - 1], s[|s| - 1];
      JoinOfPieces(init, c);
      assert init + [d] == s;
      PiecesGrow(init, c, d);
      JoinOfNext(Pieces(init, c), c, d);
    }
  }

  lemma JoinOfNext(pieces: seq<string>, c: char, d: char)
    requires pieces != []
    ensures Join(NextPieces(pieces, c, d), [c]) == Join(pieces, [c]) + [d]
  {
    hide Join;
    var next := NextPieces(pieces, c, d);
    assert next[..|next|] == next && pieces[..|pieces|] == pieces;
    JoinGrows(next, [c], |next|);
    if d == c {
      assert next[..|next| - 1] == pieces;
    } else {
      assert next[..|next| - 1] == pieces[..|pieces| - 1];
      JoinGrows(pieces, [c], |pieces|);
    }
  }

  lemma {:induction false} JoinOfParts(a: seq<string>, b: seq<string>, separator: string)
    requires a != [] && b != []
    ensures Join(a + b, separator) == Join(a, separator) + separator + Join(b, separator)
    decreases |b|
  {
    hide Join;
    var all, n := a + b, |a| + |b|;
    assert all[..n] == all && b[..|b|] == b && b[..0] == [];
    JoinGrows(all, separator, n);
    JoinGrows(b, separator, |b|);
    if |b| == 1 {
      assert all[..n - 1] == a;
      JoinOfOne(b[0], separator);
      assert b == [b[0]];
    } else {
      assert all[..n - 1] == a + b[..|b| - 1];
      JoinOfParts(a, b[..|b| - 1], separator);
    }
  }

  /** A text free of the character stands at an index with the character, or an end, on both sides. */
  predicate StandsAt(s: string, c: char, text: string, i: int) {
    && 0 <= i && i + |text| <= |s| && s[i..i + |text|] == text && c !in text
    && (i == 0 || s[i - 1] == c) && (i + |text| == |s| || s[i + |text|] == c)
  }

  ghost predicate Stands(s: string, c: char, text: string) {
    exists i :: StandsAt(s, c, text, i)
  }

  ghost predicate FollowedAt(s: string, c: char, text: string, i: int) {
    StandsAt(s, c, text, i) && i + |text| < |s|
  }

  ghost predicate Followed(s: string, c: char, text: string) {
    exists i :: FollowedAt(s, c, text, i)
  }

  lemma StandsBefore(s: string, c: char, d: char, text: string, i: int)
    ensures FollowedAt(s + [d], c, text, i) <==> if d == c then StandsAt(s, c, text, i) else FollowedAt(s, c, text, i)
  {
    var t := s + [d];
    if 0 <= i && i + |text| <= |s| {
      assert t[i..i + |text|] == s[i..i + |text|];
      assert i > 0 ==> t[i - 1] == s[i - 1];
    }
  }

  lemma FollowedGrows(s: string, c: char, d: char, text: string)
    ensures Followed(s + [d], c, text) <==> if d == c then Stands(s, c, text) else Followed(s, c, text)
  {
    hide StandsAt, FollowedAt;
    forall i
      ensures FollowedAt(s + [d], c, text, i) <==> if d == c then StandsAt(s, c, text, i) else FollowedAt(s, c, text, i)
    {
      StandsBefore(s, c, d, text, i);
    }
  }

  lemma OneLast(s: string, c: char, last: string, text: string, i: int)
    requires StandsAt(s, c, last, |s| - |last|) && StandsAt(s, c, text, i) && i + |text| == |s|
    ensures text == last
  {
    var j := |s| - |last|;
    assert forall k :: i <= k < |s| ==> s[k] == text[k - i] && s[k] in text;
    assert forall k :: j <= k < |s| ==> s[k] == last[k - j] && s[k] in last;
  }

  /** A text stands as the last one, or is followed by the character. */
  lemma StandsLastOrFollowed(s: string, c: char, last: string, text: string)
    requires StandsAt(s, c, last, |s| - |last|)
    ensures Stands(s, c, text) <==> text == last || Followed(s, c, text)
  {
    if i :| StandsAt(s, c, text, i) {
      if i + |text| == |s| { OneLast(s, c, last, text, i); } else { assert FollowedAt(s, c, text, i); }
    }
  }

  lemma LastGrows(s: string, c: char, d: char, last: string)
    requires StandsAt(s, c, last, |s| - |last|)
    ensures var next := if d == c then "" else last + [d]; StandsAt(s + [d], c, next, |s + [d]| - |next|)
  {
    var j := |s| - |last|;
    assert d != c ==> (s + [d])[j..] == s[j..] + [d];
  }

  /** The pieces are the texts that stand between two of the characters, or one of them and an end. */
  lemma {:induction false} PiecesStand(s: string, c: char, text: string)
    ensures text in Pieces(s, c) <==> Stands(s, c, text)
    ensures var pieces := Pieces(s, c);
            var last := pieces[|pieces| - 1];
            StandsAt(s, c, last, |s| - |last|) && (text in pieces[..|pieces| - 1] <==> Followed(s, c, text))
    decreases |s|
  {
    hide Pieces, Followed, StandsAt, Stands;
    var pieces := Pieces(s, c);
    var last := pieces[|pieces| - 1];
    assert pieces == pieces[..|pieces| - 1] + [last];
    if s == "" {
      PiecesOfNothing(c);
      NothingStands(c, text);
    } else {
      var init, d := s[..|s| - 1], s[|s| - 1];
      assert init + [d] == s;
      var before := Pieces(init, c);
      PiecesStand(init, c, text);
      PiecesGrow(init, c, d);
      FollowedGrows(init, c, d, text);
      LastGrows(init, c, d, before[|before| - 1]);
      assert pieces[..|pieces| - 1] == if d == c then before else before[..|before| - 1];
    }
    StandsLastOrFollowed(s, c, last, text);
  }

  lemma NothingStands(c: char, text: string)
    ensures StandsAt("", c, "", 0) && !Followed("", c, text)
  {
  }
}
