/** Shortening a text to what its box can show: a binary search that may start over on letters. */
module Ellipsis {
  import opened Options
  import opened Strings

  /** The text a browser lays out may be too high for the box. */
  type Overflow = string -> bool

  datatype Settings = Settings(wrapLetter: bool, fallbackToLetter: bool, ellipsis: string,
                               remove: seq<string>, noEllipsis: seq<string>)

  /** The blank that separates words: the ideographic one if there is no other. */
  function Space(txt: string): char {
    if ' ' in txt then ' ' else '\U{3000}'
  }

  function Letters(s: string): seq<string> {
    seq(|s|, i requires 0 <= i < |s| => [s[i]])
  }

  function Separator(txt: string, o: Settings): string {
    if o.wrapLetter then "" else [Space(txt)]
  }

  /** JavaScript's split at a separator of at most one character. */
  function SplitText(txt: string, separator: string): seq<string> {
    if separator == "" then Letters(txt) else Pieces(txt, separator[0])
  }

  /** The first pieces up to and including piece k. */
  function Kept(textArr: seq<string>, separator: string, k: nat): string
    requires k < |textArr|
  {
    Join(textArr[..k + 1], separator)
  }

  predicate Shows(overflows: Overflow, o: Settings, content: string) {
    !overflows(content + o.ellipsis)
  }

  predicate PieceShows(overflows: Overflow, o: Settings, textArr: seq<string>, separator: string, k: nat)
    requires k < |textArr|
  {
    Shows(overflows, o, Kept(textArr, separator, k))
  }

  /** A proper first part of the pieces that shows while one piece more would not, or would be all. */
  predicate Last(overflows: Overflow, o: Settings, textArr: seq<string>, separator: string, k: int) {
    && 0 <= k < |textArr| - 1
    && PieceShows(overflows, o, textArr, separator, k)
    && (k + 1 < |textArr| - 1 ==> !PieceShows(overflows, o, textArr, separator, k + 1))
  }

  /** Nothing to find: a single piece, or not even the first one shows. */
  predicate Nothing(overflows: Overflow, o: Settings, textArr: seq<string>, separator: string) {
    |textArr| <= 1 || !PieceShows(overflows, o, textArr, separator, 0)
  }

  function FirstWord(textArr: seq<string>): seq<string> {
    if textArr == [] then [] else Letters(textArr[0])
  }

  /** Whether the search goes on with the letters of the first piece. */
  predicate FallsBack(overflows: Overflow, o: Settings, textArr: seq<string>, separator: string) {
    o.fallbackToLetter && |textArr| >= 2 && !PieceShows(overflows, o, textArr, separator, 0)
  }

  /** What the search finds: a part of the pieces, or, if not even the first piece shows and the
      settings allow it, a part of the letters of the first piece. */
  predicate SearchResult(txt: string, o: Settings, overflows: Overflow,
                         textArr: seq<string>, separator: string, position: int) {
    var sep := Separator(txt, o);
    var words := SplitText(txt, sep);
    if position == -1 then
      Nothing(overflows, o, words, sep) &&
      (FallsBack(overflows, o, words, sep) ==> Nothing(overflows, o, FirstWord(words), ""))
    else if textArr == words && separator == sep then
      Last(overflows, o, words, sep, position)
    else
      FallsBack(overflows, o, words, sep) && textArr == FirstWord(words) && separator == "" &&
      Last(overflows, o, textArr, separator, position)
  }

  method Search(txt: string, o: Settings, overflows: Overflow)
    returns (textArr: seq<string>, separator: string, position: int)
    ensures SearchResult(txt, o, overflows, textArr, separator, position)
  {
    hide Pieces, Join, Space;
    separator := Separator(txt, o);
    textArr := SplitText(txt, separator);
    position := -1;
    var midPos, startPos, endPos := -1, 0, |textArr| - 1;

    ghost var words, sep := textArr, separator;
    ghost var letters := FirstWord(words);
    ghost var stage := 0;
    while startPos <= endPos && !(startPos == 0 && endPos == 0)
      invariant 0 <= stage <= 2
      invariant stage == 0 ==> textArr == words && separator == sep
      invariant stage >= 1 ==> FallsBack(overflows, o, words, sep) && separator == ""
      invariant stage == 1 ==> textArr == letters
      invariant stage == 2 ==> |textArr| <= 1 && Nothing(overflows, o, letters, "")
      invariant 0 <= startPos && -1 <= endPos < |textArr| && (textArr != [] ==> startPos <= endPos)
      invariant if position == -1 then startPos == 0 && (midPos == -1 || midPos == endPos)
                else position == startPos < endPos && PieceShows(overflows, o, textArr, separator, startPos)
      invariant endPos < |textArr| - 1 ==> !PieceShows(overflows, o, textArr, separator, endPos)
      invariant midPos in {-1, startPos, endPos}
      invariant stage == 0 && o.fallbackToLetter && |textArr| >= 2 ==> endPos != 0
      invariant stage == 1 && |textArr| >= 2 ==> endPos != 0
      decreases 2 - stage, endPos - startPos, if midPos == startPos then 0 else 1
    {
      var m := (startPos + endPos) / 2;
      if m == midPos {
        break;
      }
      midPos := m;
      if !overflows(Join(textArr[..midPos + 1], separator) + o.ellipsis) {
        position := midPos;
        startPos := midPos;
      } else {
        endPos := midPos;
      }
      if endPos == startPos && endPos == 0 && o.fallbackToLetter {
        separator := "";
        textArr := SplitText(textArr[0], separator);
        position, midPos, startPos, endPos := -1, -1, 0, |textArr| - 1;
        stage := stage + 1;
      }
    }
    assert stage == 2 ==> position == -1;
  }

  // ---- what the search finds, in the text

  /** Shorter texts show when longer ones do, and losing the ellipsis does not hurt. */
  ghost predicate Monotone(overflows: Overflow, o: Settings, txt: string) {
    && (forall i, j :: 0 <= i <= j <= |txt| && Shows(overflows, o, txt[..j]) ==> Shows(overflows, o, txt[..i]))
    && (forall i :: 0 <= i <= |txt| && Shows(overflows, o, txt[..i]) ==> !overflows(txt[..i]))
  }

  /** The places where the text may be cut: in front of a separating blank, or between letters. */
  predicate Cut(txt: string, o: Settings, n: int) {
    0 <= n < |txt| && if o.wrapLetter then 0 < n else txt[n] == if ' ' in txt then ' ' else '\U{3000}'
  }

  predicate FirstCut(txt: string, o: Settings, n: int) {
    Cut(txt, o, n) && forall m :: 0 <= m < n ==> !Cut(txt, o, m)
  }

  lemma {:induction false} KeptLetters(s: string, k: nat)
    requires k < |s|
    ensures Kept(Letters(s), "", k) == s[..k + 1]
    decreases k
  {
    hide Join;
    JoinGrows(Letters(s), "", k + 1);
    if k == 0 {
      JoinOfNothing("");
      assert Letters(s)[..0] == [];
    } else {
      KeptLetters(s, k - 1);
    }
    assert s[..k] + [s[k]] == s[..k + 1];
  }

  lemma JoinOfNothing(separator: string)
    ensures Join([], separator) == ""
  {
  }

  /** A cut of the text is where some piece ends that is not the last. */
  lemma PieceAtCut(txt: string, c: char, n: nat) returns (k: nat)
    requires n < |txt| && txt[n] == c
    ensures k < |Pieces(txt, c)| - 1 && Kept(Pieces(txt, c), [c], k) == txt[..n]
  {
    hide Pieces, Join;
    assert txt[..n] + [c] + txt[n + 1..] == txt;
    PiecesAcross(txt[..n], c, txt[n + 1..]);
    k := |Pieces(txt[..n], c)| - 1;
    assert Pieces(txt, c)[..k + 1] == Pieces(txt[..n], c);
    JoinOfPieces(txt[..n], c);
  }

  lemma CutAtPiece(txt: string, c: char, k: nat)
    requires k < |Pieces(txt, c)| - 1
    ensures var n := |Kept(Pieces(txt, c), [c], k)|;
            n < |txt| && txt[n] == c && Kept(Pieces(txt, c), [c], k) == txt[..n]
  {
    hide Pieces, Join;
    var p := Pieces(txt, c);
    assert p[..k + 1] + p[k + 1..] == p;
    JoinOfParts(p[..k + 1], p[k + 1..], [c]);
    JoinOfPieces(txt, c);
  }

  lemma {:induction false} KeptGrows(textArr: seq<string>, separator: string, j: nat, k: nat)
    requires j < k < |textArr| && separator != ""
    ensures |Kept(textArr, separator, j)| < |Kept(textArr, separator, k)|
    decreases k
  {
    hide Join;
    JoinGrows(textArr, separator, k + 1);
    if j < k - 1 { KeptGrows(textArr, separator, j, k - 1); }
  }

  /** The end of piece k in the text: a cut. */
  lemma PieceIsCut(txt: string, o: Settings, k: nat) returns (n: nat)
    requires k < |SplitText(txt, Separator(txt, o))| - 1
    ensures Cut(txt, o, n) && Kept(SplitText(txt, Separator(txt, o)), Separator(txt, o), k) == txt[..n]
  {
    hide Pieces, Join;
    if o.wrapLetter {
      n := k + 1;
      KeptLetters(txt, k);
    } else {
      CutAtPiece(txt, Space(txt), k);
      n := |Kept(Pieces(txt, Space(txt)), [Space(txt)], k)|;
    }
  }

  lemma CutIsPiece(txt: string, o: Settings, n: nat) returns (k: nat)
    requires Cut(txt, o, n)
    ensures k < |SplitText(txt, Separator(txt, o))| - 1
    ensures Kept(SplitText(txt, Separator(txt, o)), Separator(txt, o), k) == txt[..n]
  {
    hide Pieces, Join;
    if o.wrapLetter {
      k := n - 1;
      KeptLetters(txt, k);
    } else {
      k := PieceAtCut(txt, Space(txt), n);
    }
  }

  /** Later pieces end at later cuts. */
  lemma PiecesInOrder(txt: string, o: Settings, j: nat, k: nat)
    requires j < k < |SplitText(txt, Separator(txt, o))|
    ensures var words, sep := SplitText(txt, Separator(txt, o)), Separator(txt, o);
            |Kept(words, sep, j)| < |Kept(words, sep, k)|
  {
    hide Pieces, Join, Space;
    if o.wrapLetter {
      KeptLetters(txt, j);
      KeptLetters(txt, k);
    } else {
      KeptGrows(Pieces(txt, Space(txt)), [Space(txt)], j, k);
    }
  }

  predicate CutShows(txt: string, o: Settings, overflows: Overflow, n: int) {
    Cut(txt, o, n) && Shows(overflows, o, txt[..n])
  }

  /** Some letters of the first word, not all of it, that show; a text without a cut has none. */
  ghost predicate LettersShow(txt: string, o: Settings, overflows: Overflow, n: int) {
    exists f :: FirstCut(txt, o, f) && 0 < n < f && Shows(overflows, o, txt[..n])
  }

  /** The length that the search settles on: that of the longest part up to a cut that shows; if no
      cut does and the settings allow it, of the longest part of the first of several words. */
  ghost predicate Shortened(txt: string, o: Settings, overflows: Overflow, r: Option<nat>) {
    if exists m :: CutShows(txt, o, overflows, m) then
      r.Some? && CutShows(txt, o, overflows, r.value) && forall m :: r.value < m ==> !CutShows(txt, o, overflows, m)
    else if o.fallbackToLetter && exists m :: LettersShow(txt, o, overflows, m) then
      r.Some? && LettersShow(txt, o, overflows, r.value) &&
      forall m :: r.value < m ==> !LettersShow(txt, o, overflows, m)
    else
      r.None?
  }

  /** The last showing piece ends at the last cut that shows. */
  lemma LastPieceIsLastCut(txt: string, o: Settings, overflows: Overflow, k: int) returns (n: nat)
    requires Monotone(overflows, o, txt)
    requires Last(overflows, o, SplitText(txt, Separator(txt, o)), Separator(txt, o), k)
    ensures CutShows(txt, o, overflows, n)
    ensures Kept(SplitText(txt, Separator(txt, o)), Separator(txt, o), k) == txt[..n]
    ensures forall m :: n < m ==> !CutShows(txt, o, overflows, m)
  {
    hide Pieces, Join, Space, Cut, Kept, SplitText, Separator;
    var words, sep := SplitText(txt, Separator(txt, o)), Separator(txt, o);
    n := PieceIsCut(txt, o, k);
    CutsInside(txt, o);
    forall m | n < m && Cut(txt, o, m) ensures !Shows(overflows, o, txt[..m]) {
      var j := CutIsPiece(txt, o, m);
      assert |txt[..m]| == m && |txt[..n]| == n;
      if j < k { PiecesInOrder(txt, o, j, k); }
      var next := PieceIsCut(txt, o, k + 1);
      assert |txt[..next]| == next;
      if k + 1 < j { PiecesInOrder(txt, o, k + 1, j); }
    }
  }

  lemma CutsInside(txt: string, o: Settings)
    ensures forall n :: Cut(txt, o, n) ==> 0 <= n < |txt|
  {
  }

  /** If the first piece does not show, no cut does; and it ends at the first cut. */
  lemma FirstPieceIsFirstCut(txt: string, o: Settings, overflows: Overflow) returns (n: nat)
    requires Monotone(overflows, o, txt) && |SplitText(txt, Separator(txt, o))| >= 2
    requires !PieceShows(overflows, o, SplitText(txt, Separator(txt, o)), Separator(txt, o), 0)
    ensures FirstCut(txt, o, n) && SplitText(txt, Separator(txt, o))[0] == txt[..n]
    ensures forall m :: !CutShows(txt, o, overflows, m)
  {
    hide Pieces, Join, Space, Cut, Kept, SplitText, Separator;
    n := PieceIsCut(txt, o, 0);
    CutsInside(txt, o);
    assert |txt[..n]| == n;
    FirstIsKept(SplitText(txt, Separator(txt, o)), Separator(txt, o));
    forall m | Cut(txt, o, m) ensures n <= m && !Shows(overflows, o, txt[..m]) {
      var j := CutIsPiece(txt, o, m);
      assert |txt[..m]| == m;
      if 0 < j { PiecesInOrder(txt, o, 0, j); }
    }
  }

  lemma FirstIsKept(textArr: seq<string>, separator: string)
    requires textArr != []
    ensures Kept(textArr, separator, 0) == textArr[0]
  {
  }

  /** A single piece has no cuts. */
  lemma NoCutInSinglePiece(txt: string, o: Settings)
    requires |SplitText(txt, Separator(txt, o))| <= 1
    ensures forall m :: !Cut(txt, o, m)
  {
    hide Cut, SplitText, Separator;
    CutsInside(txt, o);
    forall m ensures !Cut(txt, o, m) {
      if Cut(txt, o, m) { var k := CutIsPiece(txt, o, m); }
    }
  }

  lemma FirstCutIsUnique(txt: string, o: Settings, f: int, g: int)
    requires FirstCut(txt, o, f) && FirstCut(txt, o, g)
    ensures f == g
  {
  }

  /** The letters of the first word, searched like pieces. */
  lemma LastLetterIsLongest(txt: string, o: Settings, overflows: Overflow, f: nat, k: int)
    requires Monotone(overflows, o, txt) && FirstCut(txt, o, f) && f <= |txt|
    requires Last(overflows, o, Letters(txt[..f]), "", k)
    ensures LettersShow(txt, o, overflows, k + 1) && Kept(Letters(txt[..f]), "", k) == txt[..k + 1]
    ensures forall m :: k + 1 < m ==> !LettersShow(txt, o, overflows, m)
  {
    hide Cut, Kept;
    KeptLetters(txt[..f], k);
    assert txt[..f][..k + 1] == txt[..k + 1];
    if k + 1 < f - 1 {
      KeptLetters(txt[..f], k + 1);
      assert txt[..f][..k + 2] == txt[..k + 2];
    }
    forall m, g | k + 1 < m < g && FirstCut(txt, o, g) ensures m <= |txt| && !Shows(overflows, o, txt[..m]) {
      FirstCutIsUnique(txt, o, f, g);
      assert !Shows(overflows, o, txt[..k + 2]);
    }
  }

  lemma NoLetterShows(txt: string, o: Settings, overflows: Overflow, f: nat)
    requires Monotone(overflows, o, txt) && FirstCut(txt, o, f) && f <= |txt|
    requires Nothing(overflows, o, Letters(txt[..f]), "")
    ensures forall m :: !LettersShow(txt, o, overflows, m)
  {
    hide Cut, Kept;
    if f >= 2 {
      KeptLetters(txt[..f], 0);
      assert txt[..f][..1] == txt[..1];
    }
    forall m, g | 0 < m < g && FirstCut(txt, o, g) ensures m <= |txt| && !Shows(overflows, o, txt[..m]) {
      FirstCutIsUnique(txt, o, f, g);
      assert !Shows(overflows, o, txt[..1]);
    }
  }

  /** The search of the pieces is one of the text: it keeps its longest part that shows. */
  lemma FoundLength(txt: string, o: Settings, overflows: Overflow,
                    textArr: seq<string>, separator: string, position: int)
    returns (n: Option<nat>)
    requires SearchResult(txt, o, overflows, textArr, separator, position)
    ensures n.Some? <==> position != -1
    ensures n.Some? ==> 0 <= position < |textArr| - 1 && n.value <= |txt|
    ensures n.Some? ==> Kept(textArr, separator, position) == txt[..n.value] && Shows(overflows, o, txt[..n.value])
    ensures Monotone(overflows, o, txt) ==> Shortened(txt, o, overflows, n)
  {
    hide Pieces, Join, Space, Kept, SplitText, Separator, Cut, Monotone, LettersShow;
    var sep := Separator(txt, o);
    var words := SplitText(txt, sep);
    if position == -1 {
      n := None;
      if Monotone(overflows, o, txt) { NothingIsNone(txt, o, overflows); }
    } else if textArr == words && separator == sep {
      var end := PieceIsCut(txt, o, position);
      n := Some(end);
      CutsInside(txt, o);
      assert |txt[..end]| == end;
      if Monotone(overflows, o, txt) {
        var last := LastPieceIsLastCut(txt, o, overflows, position);
        assert |txt[..last]| == last;
      }
    } else {
      var f := PieceIsCut(txt, o, 0);
      CutsInside(txt, o);
      FirstIsKept(words, sep);
      KeptLetters(txt[..f], position);
      assert txt[..f][..position + 1] == txt[..position + 1];
      n := Some(position + 1);
      if Monotone(overflows, o, txt) {
        var first := FirstPieceIsFirstCut(txt, o, overflows);
        assert |txt[..first]| == first && |txt[..f]| == f;
        LastLetterIsLongest(txt, o, overflows, f, position);
      }
    }
  }

  lemma NothingIsNone(txt: string, o: Settings, overflows: Overflow)
    requires Monotone(overflows, o, txt)
    requires SearchResult(txt, o, overflows, [], "", -1)
    ensures Shortened(txt, o, overflows, None)
  {
    hide Pieces, Join, Space, Kept, SplitText, Separator, Cut, Monotone, LettersShow;
    var sep := Separator(txt, o);
    var words := SplitText(txt, sep);
    if |words| <= 1 {
      NoCutInSinglePiece(txt, o);
      NoLettersWithoutCut(txt, o, overflows);
    } else {
      var f := FirstPieceIsFirstCut(txt, o, overflows);
      CutsInside(txt, o);
      if o.fallbackToLetter { NoLetterShows(txt, o, overflows, f); }
    }
  }

  lemma NoLettersWithoutCut(txt: string, o: Settings, overflows: Overflow)
    requires forall m :: !Cut(txt, o, m)
    ensures forall m :: !LettersShow(txt, o, overflows, m)
  {
  }

  // ---- where the search falls back to letters, and where it does not

  /** The first word ends at the first cut, or with the text. */
  predicate FirstWordEnds(txt: string, o: Settings, f: int) {
    0 <= f <= |txt| && (f < |txt| ==> Cut(txt, o, f)) && forall m :: 0 <= m < f ==> !Cut(txt, o, m)
  }

  /** Letters of the first word would show: the search finds something exactly if the text has a cut. */
  lemma FallbackNeedsACut(txt: string, o: Settings, overflows: Overflow,
                          textArr: seq<string>, separator: string, position: int, f: int, m: int)
    requires Monotone(overflows, o, txt) && o.fallbackToLetter
    requires SearchResult(txt, o, overflows, textArr, separator, position)
    requires FirstWordEnds(txt, o, f) && 0 < m < f && Shows(overflows, o, txt[..m])
    ensures position != -1 <==> exists n :: Cut(txt, o, n)
  {
    hide Pieces, Join, Space, Kept, SplitText, Separator, Cut, Monotone, Shows;
    CutsInside(txt, o);
    if exists n :: Cut(txt, o, n) {
      assert FirstCut(txt, o, f);
      assert LettersShow(txt, o, overflows, m);
    }
    var n := FoundLength(txt, o, overflows, textArr, separator, position);
    if position != -1 {
      var c := PieceIsCut(txt, o, 0);
    }
  }

  /** The settings of the plug-in but for the last characters: words, then letters. */
  const WORDS_THEN_LETTERS := Settings(false, true, "... ", [], [])

  /** A box with room for five characters. */
  const FIVE: Overflow := (content: string) => |content| > 5

  /** "abcdef" does not fit; its first letter would show with its ellipsis, and the search finds nothing. */
  lemma SingleWordIsNotShortened(textArr: seq<string>, separator: string, position: int)
    requires SearchResult("abcdef", WORDS_THEN_LETTERS, FIVE, textArr, separator, position)
    ensures FIVE("abcdef") && Shows(FIVE, WORDS_THEN_LETTERS, "abcdef"[..1]) && position == -1
  {
    var o := WORDS_THEN_LETTERS;
    assert Monotone(FIVE, o, "abcdef");
    assert FirstWordEnds("abcdef", o, 6);
    FallbackNeedsACut("abcdef", o, FIVE, textArr, separator, position, 6, 1);
  }

  /** With a second word the same letter is found. */
  lemma FirstOfTwoWordsIsShortened(textArr: seq<string>, separator: string, position: int)
    requires SearchResult("abcdef g", WORDS_THEN_LETTERS, FIVE, textArr, separator, position)
    ensures position != -1
  {
    var o := WORDS_THEN_LETTERS;
    assert Monotone(FIVE, o, "abcdef g");
    assert Cut("abcdef g", o, 6) && FirstWordEnds("abcdef g", o, 6);
    FallbackNeedsACut("abcdef g", o, FIVE, textArr, separator, position, 6, 1);
  }

  // ---- the ellipsis

  function LastCharacter(txt: string): string {
    if txt == "" then "" else [txt[|txt| - 1]]
  }

  /** The text without the characters to remove at its end. */
  predicate Stripped(txt: string, o: Settings, n: nat) {
    && n <= |txt| && (forall i :: n <= i < |txt| ==> [txt[i]] in o.remove)
    && (if n == 0 then "" else [txt[n - 1]]) !in o.remove
  }

  ghost predicate ShownAs(txt: string, o: Settings, r: string) {
    exists n: nat :: Stripped(txt, o, n) &&
      r == txt[..n] + if (if n == 0 then "" else [txt[n - 1]]) in o.noEllipsis then "" else o.ellipsis
  }

  /** The text after a number of turns of the stripping loop. */
  function Strip(txt: string, turns: nat): string {
    if turns == 0 || txt == "" then txt else Strip(txt[..|txt| - 1], turns - 1)
  }

  /** The loop leaves off after some number of turns. */
  ghost predicate StrippingEnds(txt: string, o: Settings) {
    exists turns: nat :: LastCharacter(Strip(txt, turns)) !in o.remove
  }

  /** The empty string is not to be removed, or some character stops the loop before it gets there. */
  predicate Strippable(txt: string, o: Settings) {
    "" !in o.remove || exists i :: 0 <= i < |txt| && [txt[i]] !in o.remove
  }

  lemma {:induction false} StripIsPrefix(txt: string, turns: nat)
    ensures Strip(txt, turns) == txt[..if turns <= |txt| then |txt| - turns else 0]
    decreases turns
  {
    if turns > 0 && txt != "" { StripIsPrefix(txt[..|txt| - 1], turns - 1); }
  }

  /** The loop ends exactly on the texts that are strippable. */
  lemma StrippingEndsExactlyWhen(txt: string, o: Settings)
    ensures StrippingEnds(txt, o) <==> Strippable(txt, o)
  {
    if turns: nat :| LastCharacter(Strip(txt, turns)) !in o.remove {
      StripIsPrefix(txt, turns);
      if turns < |txt| { assert LastCharacter(txt[..|txt| - turns]) == [txt[|txt| - turns - 1]]; }
    }
    if Strippable(txt, o) {
      if "" !in o.remove {
        StripIsPrefix(txt, |txt|);
        assert LastCharacter(Strip(txt, |txt|)) == "";
      } else {
        var i :| 0 <= i < |txt| && [txt[i]] !in o.remove;
        StripIsPrefix(txt, |txt| - 1 - i);
        assert LastCharacter(Strip(txt, |txt| - 1 - i)) == [txt[i]];
      }
    }
  }

  /** Two blanks, both of them and then nothing to be removed: the loop goes on for good. */
  lemma StrippingCanGoOnForGood()
    ensures var o := WORDS_THEN_LETTERS.(remove := ["", " "]); !StrippingEnds("  ", o) && StrippingEnds("a  ", o)
  {
    var o := WORDS_THEN_LETTERS.(remove := ["", " "]);
    StrippingEndsExactlyWhen("  ", o);
    StrippingEndsExactlyWhen("a  ", o);
    assert ["a  "[0]] == "a";
  }

  method AddEllipsis(txt: string, o: Settings) returns (r: string)
    requires Strippable(txt, o)
    ensures ShownAs(txt, o, r)
  {
    r := txt;
    ghost var n: nat := |txt|;
    assert txt[..n] == txt;
    while LastCharacter(r) in o.remove
      invariant n <= |txt| && r == txt[..n] && forall i :: n <= i < |txt| ==> [txt[i]] in o.remove
      decreases n
    {
      n := n - 1;
      r := r[..|r| - 1];
    }
    assert Stripped(txt, o, n) && r + "" == r;
    if LastCharacter(r) !in o.noEllipsis {
      r := r + o.ellipsis;
    }
  }

  lemma StrippedShows(txt: string, o: Settings, overflows: Overflow, n: nat, r: string)
    requires Monotone(overflows, o, txt) && n <= |txt| && Shows(overflows, o, txt[..n]) && ShownAs(txt[..n], o, r)
    ensures !overflows(r)
  {
    var t := txt[..n];
    var m: nat :| Stripped(t, o, m) &&
      r == t[..m] + if (if m == 0 then "" else [t[m - 1]]) in o.noEllipsis then "" else o.ellipsis;
    assert t[..m] == txt[..m] && txt[..m] + "" == txt[..m];
  }

  /** What becomes of a text node: it gets a text, it goes, or the stripping never ends. */
  datatype Outcome = Gets(content: string) | Goes | Hangs

  /** The part of the text that is kept has the length that the search settles on, and the result
      shows; the stripping hangs exactly if that part is not strippable. */
  method EllipsisElement(txt: string, o: Settings, overflows: Overflow) returns (outcome: Outcome)
    ensures Monotone(overflows, o, txt) ==>
              match outcome
              case Goes => Shortened(txt, o, overflows, None)
              case Gets(content) => exists n: nat ::
                n <= |txt| && Shortened(txt, o, overflows, Some(n)) && ShownAs(txt[..n], o, content)
              case Hangs => exists n: nat ::
                n <= |txt| && Shortened(txt, o, overflows, Some(n)) && !StrippingEnds(txt[..n], o)
    ensures Monotone(overflows, o, txt) && outcome.Gets? ==> !overflows(outcome.content)
    ensures outcome.Hangs? ==> "" in o.remove
  {
    hide SearchResult, Shortened, Separator, SplitText, Join, Monotone, ShownAs, Shows, StrippingEnds;
    var textArr, separator, position := Search(txt, o, overflows);
    ghost var n := FoundLength(txt, o, overflows, textArr, separator, position);
    if position != -1 && textArr != [""] {
      var kept := Join(textArr[..position + 1], separator);
      assert kept == txt[..n.value];
      if !Strippable(kept, o) {
        StrippingEndsExactlyWhen(kept, o);
        return Hangs;
      }
      var added := AddEllipsis(kept, o);
      outcome := Gets(added);
      assert ShownAs(txt[..n.value], o, added);
      if Monotone(overflows, o, txt) { StrippedShows(txt, o, overflows, n.value, added); }
    } else {
      outcome := Goes;
    }
  }
}
