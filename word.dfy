/**
 * Words, the geometry that lays a word out from one of its letters, the
 * centring of the first word, and the generator of placement candidates
 * (src/interfaces/Word.tsx).
 */
module Word {
  import opened Wrappers
  import opened PuzModelCell
  import opened Xing

  /** A puzzle word. `coords` and `isAcross` are `null` (`None`) until the word is placed. */
  datatype Word = Word(word: string, coords: Option<seq<Coords>>, isAcross: Option<bool>)

  /** A proposed placement for the unplaced side of a crossing; `makeWordCandidate` is its constructor. */
  datatype WordCandidate = WordCandidate(xingWordCandidate: XingWord, coordsCandidate: seq<Coords>, displayedXingWord: XingWord)

  /** The placement invariant: orientation and coordinates are set together or not at all. */
  predicate Consistent(w: Word)
  {
    w.coords.None? <==> w.isAcross.None?
  }

  /** The word has coordinates, i.e. it is on the grid. */
  predicate IsPlaced(w: Word)
  {
    w.coords.Some?
  }

  /** A word list as the generator expects it: distinct texts, consistent words, one coordinate per letter. */
  predicate WellFormedWords(words: seq<Word>)
  {
    && (forall p, q | 0 <= p < q < |words| :: words[p].word != words[q].word)
    && (forall p | 0 <= p < |words| :: Consistent(words[p]))
    && (forall p | 0 <= p < |words| && IsPlaced(words[p]) :: |words[p].coords.value| == |words[p].word|)
  }

  // ---------------------------------------------------------------------
  // Record helpers

  /** makeWord: a fresh, unplaced word. */
  function MakeWord(s: string): (w: Word)
    ensures w.word == s && !IsPlaced(w) && w.isAcross.None?
    ensures Consistent(w)
  {
    Word(s, None, None)
  }

  /** getUpdatedWord: the same word, placed with the given orientation and coordinates. */
  function GetUpdatedWord(oldWord: Word, isAcross: bool, coords: seq<Coords>): (w: Word)
    ensures w.word == oldWord.word
    ensures IsPlaced(w) && w.coords.value == coords && w.isAcross == Some(isAcross)
    ensures Consistent(w)
  {
    oldWord.(isAcross := Some(isAcross), coords := Some(coords))
  }

  /** getWord: the first word whose text is `s` (`Array.prototype.find`). */
  function GetWord(words: seq<Word>, s: string): (r: Option<Word>)
    ensures r.Some? <==> exists q :: 0 <= q < |words| && words[q].word == s
    ensures r.Some? ==> exists q :: 0 <= q < |words| && words[q] == r.value && r.value.word == s &&
                                     forall p :: 0 <= p < q ==> words[p].word != s
  {
    if words == [] then None
    else if words[0].word == s then
      Some(words[0])
    else
      var r := GetWord(words[1..], s);
      assert forall q :: 1 <= q < |words| ==> words[q] == words[1..][q - 1];
      r
  }

  /** `a` is `b` with some elements left out (greedy matching from the front). */
  predicate IsSubsequence<T(==)>(a: seq<T>, b: seq<T>)
    decreases |b|
  {
    if a == [] then true
    else if b == [] then false
    else if a[0] == b[0] then IsSubsequence(a[1..], b[1..])
    else IsSubsequence(a, b[1..])
  }

  /** getDisplayedWords: the placed words, in list order (`Array.prototype.filter`). */
  function GetDisplayedWords(words: seq<Word>): (r: seq<Word>)
    ensures IsSubsequence(r, words)
    ensures forall w :: IsPlaced(w) ==> multiset(r)[w] == multiset(words)[w]
    ensures forall w :: !IsPlaced(w) ==> multiset(r)[w] == 0
  {
    if words == [] then []
    else
      assert words == [words[0]] + words[1..];
      var rest := GetDisplayedWords(words[1..]);
      if IsPlaced(words[0]) then [words[0]] + rest
      else
        assert rest != [] ==> rest[0] in multiset(rest);
        rest
  }

  // ---------------------------------------------------------------------
  // Geometry

  /**
   * Where letter `i` lands when `xw` is laid out through `given` at its
   * letter `letterIdxInWord`: Across keeps the row and moves the column,
   * Down keeps the column and moves the row.
   */
  function LetterCoords(xw: XingWord, given: Coords, i: int): Coords
  {
    if xw.isAcross then Coords(given.row, given.col + i - xw.letterIdxInWord)
    else Coords(given.row + i - xw.letterIdxInWord, given.col)
  }

  /**
   * The coordinates getWordCoordsFromLetterCoords builds: one per letter,
   * or, for an index past the end of the word, one per position up to it.
   */
  function WordCoordsFromLetterCoords(xw: XingWord, given: Coords): (cs: seq<Coords>)
    ensures ValidXingWord(xw) ==> |cs| == |xw.word|
    ensures xw.letterIdxInWord < |cs| && cs[xw.letterIdxInWord] == given
  {
    var n := if xw.letterIdxInWord < |xw.word| then |xw.word| else xw.letterIdxInWord + 1;
    seq(n, i => LetterCoords(xw, given, i))
  }

  /** The cells are contiguous: each one is the next cell along the word's direction. */
  lemma WordCoordsContiguous(xw: XingWord, given: Coords)
    ensures var cs := WordCoordsFromLetterCoords(xw, given);
            forall q | 0 <= q < |cs| - 1 ::
              if xw.isAcross then cs[q + 1].row == cs[q].row && cs[q + 1].col == cs[q].col + 1
              else cs[q + 1].col == cs[q].col && cs[q + 1].row == cs[q].row + 1
  {
  }

  /** The cell getCoordsGeneric builds for position `i` is letter `i`'s cell. */
  lemma GenericIsLetterCoords(xw: XingWord, given: Coords, i: int)
    ensures var dd: Direction := if xw.isAcross then 1 else 0;
            var sd: Direction := if !xw.isAcross then 1 else 0;
            GetCoordsGeneric(sd, Component(given, sd), dd, i + Component(given, dd) - xw.letterIdxInWord)
              == LetterCoords(xw, given, i)
  {
  }

  /** Prepending element `i` to the slice after it gives the slice from `i`. */
  lemma PrependSlice<T>(s: seq<T>, i: nat, j: nat)
    requires i < j <= |s|
    ensures [s[i]] + s[i + 1..j] == s[i..j]
  {
  }

  /** Appending element `i` to the prefix before it gives the prefix through `i`. */
  lemma AppendSlice<T>(s: seq<T>, i: nat)
    requires i < |s|
    ensures s[..i] + [s[i]] == s[..i + 1]
  {
  }

  /**
   * getWordCoordsFromLetterCoords: start from the given cell, prepend the
   * letters before it, then append the letters after it. No bounds check.
   */
  method GetWordCoordsFromLetterCoords(xw: XingWord, given: Coords) returns (wordPos: seq<Coords>)
    ensures wordPos == WordCoordsFromLetterCoords(xw, given)
  {
    var dynamicDirection: Direction := if xw.isAcross then 1 else 0;
    var staticDirection: Direction := if !xw.isAcross then 1 else 0;
    var staticPos := Component(given, staticDirection);
    var offset := Component(given, dynamicDirection) - xw.letterIdxInWord;
    wordPos := PrependLetters(xw, given, staticDirection, staticPos, dynamicDirection, offset);
    wordPos := AppendLetters(xw, given, staticDirection, staticPos, dynamicDirection, offset, wordPos);
  }

  /** The first loop: the cells from the word's start up to the given one. */
  method PrependLetters(xw: XingWord, given: Coords, staticDirection: Direction, staticPos: int,
                        dynamicDirection: Direction, offset: int) returns (wordPos: seq<Coords>)
    requires dynamicDirection == (if xw.isAcross then 1 else 0) && staticDirection == 1 - dynamicDirection
    requires staticPos == Component(given, staticDirection)
    requires offset == Component(given, dynamicDirection) - xw.letterIdxInWord
    ensures wordPos == WordCoordsFromLetterCoords(xw, given)[..xw.letterIdxInWord + 1]
  {
    var idx: int := xw.letterIdxInWord;
    ghost var full := WordCoordsFromLetterCoords(xw, given);
    wordPos := [given];
    var i: int := idx - 1;
    while i >= 0
      invariant -1 <= i < idx
      invariant wordPos == full[i + 1..idx + 1]
    {
      var c := GetCoordsGeneric(staticDirection, staticPos, dynamicDirection, i + offset);
      assert c == full[i] by { GenericIsLetterCoords(xw, given, i); }
      assert [c] + full[i + 1..idx + 1] == full[i..idx + 1] by { PrependSlice(full, i, idx + 1); }
      wordPos := [c] + wordPos;
      i := i - 1;
    }
    assert full[0..idx + 1] == full[..idx + 1];
  }

  /** The second loop: the cells after the given one, to the word's end. */
  method AppendLetters(xw: XingWord, given: Coords, staticDirection: Direction, staticPos: int,
                       dynamicDirection: Direction, offset: int, prefix: seq<Coords>) returns (wordPos: seq<Coords>)
    requires dynamicDirection == (if xw.isAcross then 1 else 0) && staticDirection == 1 - dynamicDirection
    requires staticPos == Component(given, staticDirection)
    requires offset == Component(given, dynamicDirection) - xw.letterIdxInWord
    requires prefix == WordCoordsFromLetterCoords(xw, given)[..xw.letterIdxInWord + 1]
    ensures wordPos == WordCoordsFromLetterCoords(xw, given)
  {
    ghost var full := WordCoordsFromLetterCoords(xw, given);
    wordPos := prefix;
    var i := xw.letterIdxInWord + 1;
    while i < |xw.word|
      invariant xw.letterIdxInWord + 1 <= i <= |full|
      invariant wordPos == full[..i]
    {
      var c := GetCoordsGeneric(staticDirection, staticPos, dynamicDirection, i + offset);
      assert c == full[i] by { GenericIsLetterCoords(xw, given, i); }
      assert full[..i] + [c] == full[..i + 1] by { AppendSlice(full, i); }
      wordPos := wordPos + [c];
      i := i + 1;
    }
    assert full[..|full|] == full;
  }

  // ---------------------------------------------------------------------
  // The first word

  /**
   * getUpdatedFirstWord as written: the word laid out Across with its middle
   * letter at the grid's centre. It always returns a placed word, even one
   * that runs off the grid.
   */
  function GetUpdatedFirstWord(givenWord: Word, puzHeight: int, puzWidth: int): (r: Word)
    ensures r.word == givenWord.word && r.isAcross == Some(true) && IsPlaced(r) && Consistent(r)
    ensures |givenWord.word| > 0 ==> |r.coords.value| == |givenWord.word|
    ensures |givenWord.word| / 2 < |r.coords.value| &&
            r.coords.value[|givenWord.word| / 2] == Coords(puzHeight / 2, puzWidth / 2)
    ensures forall q | 0 <= q < |r.coords.value| :: r.coords.value[q].row == puzHeight / 2
  {
    var center := Coords(puzHeight / 2, puzWidth / 2);
    var cs := WordCoordsFromLetterCoords(XingWord(givenWord.word, |givenWord.word| / 2, true), center);
    assert forall q | 0 <= q < |cs| :: cs[q] == LetterCoords(XingWord(givenWord.word, |givenWord.word| / 2, true), center, q);
    GetUpdatedWord(givenWord, true, cs)
  }

  /** Row `r0` and the columns `c0 .. c0 + n - 1` lie on an `h` by `w` grid exactly when they fit. */
  lemma RowSegmentOnModel(h: int, w: int, cs: seq<Coords>, r0: int, c0: int)
    requires forall q | 0 <= q < |cs| :: cs[q] == Coords(r0, c0 + q)
    requires |cs| > 0
    ensures AreWordCoordsOnModel(h, w, cs) <==> 0 <= r0 < h && 0 <= c0 && c0 + |cs| <= w
  {
    if AreWordCoordsOnModel(h, w, cs) {
      assert OnModel(h, w, cs[0]) && OnModel(h, w, cs[|cs| - 1]);
    }
  }

  /**
   * First-word placement with the evident intent of the callers: the centred
   * word, or `None` when it does not fit. A word fits exactly when the grid
   * has a row and the word is no wider than the grid.
   */
  function PlaceFirstWord(givenWord: Word, puzHeight: int, puzWidth: int): (r: Option<Word>)
    ensures r.Some? ==> r.value == GetUpdatedFirstWord(givenWord, puzHeight, puzWidth)
    ensures r.Some? ==> AreWordCoordsOnModel(puzHeight, puzWidth, r.value.coords.value)
    ensures r.Some? <==> 1 <= puzHeight && (if |givenWord.word| == 0 then 1 else |givenWord.word|) <= puzWidth
  {
    var placed := GetUpdatedFirstWord(givenWord, puzHeight, puzWidth);
    var cs := placed.coords.value;
    var n := |givenWord.word|;
    var c0 := puzWidth / 2 - n / 2;
    assert forall q | 0 <= q < |cs| :: cs[q] == Coords(puzHeight / 2, c0 + q) by {
      forall q | 0 <= q < |cs| ensures cs[q] == Coords(puzHeight / 2, c0 + q) {
        assert cs == WordCoordsFromLetterCoords(XingWord(givenWord.word, n / 2, true), Coords(puzHeight / 2, puzWidth / 2));
      }
    }
    RowSegmentOnModel(puzHeight, puzWidth, cs, puzHeight / 2, c0);
    if AreWordCoordsOnModel(puzHeight, puzWidth, cs) then Some(placed) else None
  }

  // ---------------------------------------------------------------------
  // Candidate generation

  /** The endpoint's word is in the list and placed. */
  predicate IsDisplayedXingWord(words: seq<Word>, xw: XingWord)
  {
    var w := GetWord(words, xw.word);
    w.Some? && IsPlaced(w.value)
  }

  /** A crossing's two sides once it is known which one is on the grid. */
  datatype XingRoles = XingRoles(nonDisplayed: XingWord, displayed: XingWord)

  /**
   * getNonDisplayedXingWord and getDisplayedXingWord: a crossing is
   * actionable only when exactly one of its words is placed.
   */
  function GetXingRoles(words: seq<Word>, xing: Xing): (r: Option<XingRoles>)
    ensures r.Some? <==> IsDisplayedXingWord(words, xing.first) != IsDisplayedXingWord(words, xing.second)
    ensures r.Some? ==> IsDisplayedXingWord(words, r.value.displayed) && !IsDisplayedXingWord(words, r.value.nonDisplayed)
    ensures r.Some? ==> r.value in {XingRoles(xing.first, xing.second), XingRoles(xing.second, xing.first)}
  {
    var d1 := IsDisplayedXingWord(words, xing.first);
    var d2 := IsDisplayedXingWord(words, xing.second);
    if d1 && !d2 then Some(XingRoles(xing.second, xing.first))
    else if d2 && !d1 then Some(XingRoles(xing.first, xing.second))
    else None
  }

  /**
   * The anchor cell, as intended: the placed word's coordinate at the
   * displayed endpoint's letter index. `None` where the source would read
   * `undefined`.
   */
  function AnchorLetterCoords(words: seq<Word>, displayed: XingWord): (r: Option<Coords>)
    ensures r.Some? <==> IsDisplayedXingWord(words, displayed) &&
                         displayed.letterIdxInWord < |GetWord(words, displayed.word).value.coords.value|
    ensures r.Some? ==> exists q :: 0 <= q < |words| && words[q].word == displayed.word && IsPlaced(words[q]) &&
                                    displayed.letterIdxInWord < |words[q].coords.value| &&
                                    r.value == words[q].coords.value[displayed.letterIdxInWord]
  {
    match GetWord(words, displayed.word)
    case None => None
    case Some(w) =>
      if w.coords.Some? && displayed.letterIdxInWord < |w.coords.value|
      then Some(w.coords.value[displayed.letterIdxInWord]) else None
  }

  /**
   * The anchor cell as src/interfaces/Word.tsx:50-52 computes it: from the
   * coordinates of the NON-displayed word, which are `null`. `None` stands
   * for the TypeError (or `undefined`) that follows.
   */
  function AnchorLetterCoordsAsWritten(words: seq<Word>, nonDisplayed: XingWord): (r: Option<Coords>)
    ensures !IsDisplayedXingWord(words, nonDisplayed) ==> r.None?
    ensures r.Some? ==> IsDisplayedXingWord(words, nonDisplayed) &&
                        nonDisplayed.letterIdxInWord < |GetWord(words, nonDisplayed.word).value.coords.value| &&
                        r.value == GetWord(words, nonDisplayed.word).value.coords.value[nonDisplayed.letterIdxInWord]
  {
    match GetWord(words, nonDisplayed.word)
    case None => None
    case Some(w) =>
      if w.coords.Some? && nonDisplayed.letterIdxInWord < |w.coords.value|
      then Some(w.coords.value[nonDisplayed.letterIdxInWord]) else None
  }

  /**
   * What one crossing contributes to makeWordCandidatesFromXings: the
   * unplaced side laid out through the anchor cell, kept only if on the grid.
   */
  function CandidateFor(words: seq<Word>, xing: Xing, puzHeight: int, puzWidth: int): (r: Option<WordCandidate>)
    ensures IsDisplayedXingWord(words, xing.first) == IsDisplayedXingWord(words, xing.second) ==> r.None?
    ensures r.Some? ==> AreWordCoordsOnModel(puzHeight, puzWidth, r.value.coordsCandidate)
    ensures r.Some? ==> !IsDisplayedXingWord(words, r.value.xingWordCandidate) &&
                        IsDisplayedXingWord(words, r.value.displayedXingWord)
    ensures r.Some? ==> (r.value.xingWordCandidate == xing.first && r.value.displayedXingWord == xing.second) ||
                        (r.value.xingWordCandidate == xing.second && r.value.displayedXingWord == xing.first)
    ensures r.Some? ==> AnchorLetterCoords(words, r.value.displayedXingWord).Some? &&
                        r.value.coordsCandidate == WordCoordsFromLetterCoords(
                          r.value.xingWordCandidate, AnchorLetterCoords(words, r.value.displayedXingWord).value)
  {
    match GetXingRoles(words, xing)
    case None => None
    case Some(roles) =>
      match AnchorLetterCoords(words, roles.displayed)
      case None => None
      case Some(anchor) =>
        var cs := WordCoordsFromLetterCoords(roles.nonDisplayed, anchor);
        if AreWordCoordsOnModel(puzHeight, puzWidth, cs)
        then Some(WordCandidate(roles.nonDisplayed, cs, roles.displayed))
        else None
  }

  /** The candidates for a list of crossings, in crossing order. */
  function Candidates(xings: seq<Xing>, words: seq<Word>, puzHeight: int, puzWidth: int): (r: seq<WordCandidate>)
    ensures |r| <= |xings|
    ensures forall c | c in r :: AreWordCoordsOnModel(puzHeight, puzWidth, c.coordsCandidate)
  {
    if xings == [] then []
    else
      var rest := Candidates(xings[..|xings| - 1], words, puzHeight, puzWidth);
      match CandidateFor(words, xings[|xings| - 1], puzHeight, puzWidth)
      case None => rest
      case Some(c) => rest + [c]
  }

  /**
   * makeWordCandidatesFromXings: one pass over the crossings, keeping every
   * in-bounds proposal for the unplaced side.
   */
  method MakeWordCandidatesFromXings(xings: seq<Xing>, words: seq<Word>, puzHeight: int, puzWidth: int)
    returns (ret: seq<WordCandidate>)
    ensures ret == Candidates(xings, words, puzHeight, puzWidth)
  {
    ret := [];
    for n := 0 to |xings|
      invariant ret == Candidates(xings[..n], words, puzHeight, puzWidth)
    {
      var xing := xings[n];
      assert xings[..n + 1][..n] == xings[..n];
      var roles := GetXingRoles(words, xing);
      if roles.Some? {
        var nonDisplayedXingWord := roles.value.nonDisplayed;
        var displayedXingWord := roles.value.displayed;
        // The source reads the anchor cell from the non-displayed word
        // (AnchorLetterCoordsAsWritten); the displayed word's cell is meant.
        var letterCoordsCandidate := AnchorLetterCoords(words, displayedXingWord);
        if letterCoordsCandidate.Some? {
          var wordCoordsCandidate := GetWordCoordsFromLetterCoords(nonDisplayedXingWord, letterCoordsCandidate.value);
          // Only proposals that lie wholly on the grid are kept.
          if AreWordCoordsOnModel(puzHeight, puzWidth, wordCoordsCandidate) {
            ret := ret + [WordCandidate(nonDisplayedXingWord, wordCoordsCandidate, displayedXingWord)];
          }
        }
      }
    }
    assert xings[..|xings|] == xings;
  }

  // ---------------------------------------------------------------------
  // Properties of the candidate generator

  /** Strictly increasing positions into a sequence of length `n`. */
  predicate IncreasingIndices(idx: seq<nat>, n: nat)
  {
    (forall p | 0 <= p < |idx| :: idx[p] < n) &&
    (forall p, q | 0 <= p < q < |idx| :: idx[p] < idx[q])
  }

  /** The `Some` results of `f` over `xs`, in order. */
  function KeepSome<A, B>(xs: seq<A>, f: A -> Option<B>): seq<B>
  {
    if xs == [] then []
    else
      var rest := KeepSome(xs[..|xs| - 1], f);
      match f(xs[|xs| - 1])
      case None => rest
      case Some(b) => rest + [b]
  }

  /** Every kept result comes from its own position of `xs`, in order, and no `Some` is dropped. */
  lemma {:induction false} KeepSomeOrigins<A, B>(xs: seq<A>, f: A -> Option<B>) returns (idx: seq<nat>)
    ensures var r := KeepSome(xs, f);
            && |idx| == |r|
            && IncreasingIndices(idx, |xs|)
            && (forall p | 0 <= p < |r| :: f(xs[idx[p]]) == Some(r[p]))
            && (forall q | 0 <= q < |xs| && f(xs[q]).Some? :: q in idx)
  {
    if xs == [] {
      idx := [];
    } else {
      var n := |xs| - 1;
      var init := xs[..n];
      var rest := KeepSome(init, f);
      var prev := KeepSomeOrigins(init, f);
      assert forall q | 0 <= q < n :: init[q] == xs[q];
      if f(xs[n]).None? {
        idx := prev;
      } else {
        idx := prev + [n];
        var r := KeepSome(xs, f);
        assert r == rest + [f(xs[n]).value];
        forall p | 0 <= p < |r|
          ensures f(xs[idx[p]]) == Some(r[p])
        {
          if p < |rest| {
            assert idx[p] == prev[p] && r[p] == rest[p];
          }
        }
      }
    }
  }

  lemma {:induction false} CandidatesAreKeepSome(xings: seq<Xing>, words: seq<Word>, puzHeight: int, puzWidth: int)
    ensures Candidates(xings, words, puzHeight, puzWidth) == KeepSome(xings, x => CandidateFor(words, x, puzHeight, puzWidth))
  {
    if xings != [] {
      CandidatesAreKeepSome(xings[..|xings| - 1], words, puzHeight, puzWidth);
    }
  }

  /**
   * The candidates are an order-preserving selection of the crossings: the
   * p-th candidate comes from crossing `idx[p]`, the positions increase, and
   * every crossing that yields a candidate is among them.
   */
  lemma CandidatesOrigins(xings: seq<Xing>, words: seq<Word>, puzHeight: int, puzWidth: int)
    returns (idx: seq<nat>)
    ensures var r := Candidates(xings, words, puzHeight, puzWidth);
            && |idx| == |r|
            && IncreasingIndices(idx, |xings|)
            && (forall p | 0 <= p < |r| :: CandidateFor(words, xings[idx[p]], puzHeight, puzWidth) == Some(r[p]))
            && (forall q | 0 <= q < |xings| && CandidateFor(words, xings[q], puzHeight, puzWidth).Some? :: q in idx)
  {
    CandidatesAreKeepSome(xings, words, puzHeight, puzWidth);
    idx := KeepSomeOrigins(xings, x => CandidateFor(words, x, puzHeight, puzWidth));
  }

  /**
   * Under the placement invariant, a crossing with exactly one placed side
   * whose letter indices are valid yields a candidate exactly when the
   * layout through the anchor cell is on the grid, and that layout has one
   * cell per letter and shares the anchor cell with the placed word.
   */
  lemma CandidateForWellFormed(words: seq<Word>, xing: Xing, puzHeight: int, puzWidth: int)
    requires WellFormedWords(words)
    requires ValidXingWord(xing.first) && ValidXingWord(xing.second)
    ensures var roles := GetXingRoles(words, xing);
            roles.Some? ==>
              var d := roles.value.displayed;
              && d.letterIdxInWord < |GetWord(words, d.word).value.coords.value|
              && var anchor := GetWord(words, d.word).value.coords.value[d.letterIdxInWord];
                 var cs := WordCoordsFromLetterCoords(roles.value.nonDisplayed, anchor);
                 && AnchorLetterCoords(words, d) == Some(anchor)
                 && |cs| == |roles.value.nonDisplayed.word|
                 && cs[roles.value.nonDisplayed.letterIdxInWord] == anchor
                 && (CandidateFor(words, xing, puzHeight, puzWidth).Some? <==> AreWordCoordsOnModel(puzHeight, puzWidth, cs))
  {
    var roles := GetXingRoles(words, xing);
    if roles.Some? {
      DisplayedAnchor(words, roles.value.displayed);
    }
  }

  /** A placed word of a well-formed list has a cell for every letter index of its text. */
  lemma DisplayedAnchor(words: seq<Word>, d: XingWord)
    requires WellFormedWords(words) && ValidXingWord(d) && IsDisplayedXingWord(words, d)
    ensures d.letterIdxInWord < |GetWord(words, d.word).value.coords.value|
    ensures AnchorLetterCoords(words, d) == Some(GetWord(words, d.word).value.coords.value[d.letterIdxInWord])
  {
    var w := GetWord(words, d.word).value;
    var q :| 0 <= q < |words| && words[q] == w && w.word == d.word;
    assert IsPlaced(words[q]);
  }

  // ---------------------------------------------------------------------
  // Findings

  /**
   * As written, the anchor cell is read from the non-displayed side, whose
   * word is unplaced: on every actionable crossing the lookup fails.
   */
  lemma AsWrittenAnchorAlwaysFails(words: seq<Word>, xing: Xing)
    requires GetXingRoles(words, xing).Some?
    ensures AnchorLetterCoordsAsWritten(words, GetXingRoles(words, xing).value.nonDisplayed).None?
  {
  }

  /** "cat" placed Across on (2,2),(2,3),(2,4); "car" unplaced. */
  function CatCarWords(): seq<Word>
  {
    [Word("cat", Some([Coords(2, 2), Coords(2, 3), Coords(2, 4)]), Some(true)), MakeWord("car")]
  }

  /**
   * On the crossing through the shared "c", the source as written cannot
   * find an anchor cell, while the intended lookup proposes "car" Down on
   * (2,2),(3,2),(4,2); through the shared "a" it proposes (1,3),(2,3),(3,3).
   */
  lemma CatCarCandidates()
    ensures var x := Xing(XingWord("cat", 0, true), XingWord("car", 0, false));
            && AnchorLetterCoordsAsWritten(CatCarWords(), x.second).None?
            && CandidateFor(CatCarWords(), x, 5, 5) ==
               Some(WordCandidate(x.second, [Coords(2, 2), Coords(3, 2), Coords(4, 2)], x.first))
    ensures var x := Xing(XingWord("cat", 1, true), XingWord("car", 1, false));
            CandidateFor(CatCarWords(), x, 5, 5) ==
            Some(WordCandidate(x.second, [Coords(1, 3), Coords(2, 3), Coords(3, 3)], x.first))
  {
    var ws := CatCarWords();
    assert GetWord(ws, "cat") == Some(ws[0]);
    assert ws[1..] == [MakeWord("car")];
    assert GetWord(ws, "car") == Some(ws[1]);
    var x0 := Xing(XingWord("cat", 0, true), XingWord("car", 0, false));
    assert GetXingRoles(ws, x0) == Some(XingRoles(x0.second, x0.first));
    var cs0 := WordCoordsFromLetterCoords(x0.second, Coords(2, 2));
    assert cs0 == [Coords(2, 2), Coords(3, 2), Coords(4, 2)];
    var x1 := Xing(XingWord("cat", 1, true), XingWord("car", 1, false));
    assert GetXingRoles(ws, x1) == Some(XingRoles(x1.second, x1.first));
    var cs1 := WordCoordsFromLetterCoords(x1.second, Coords(2, 3));
    assert cs1 == [Coords(1, 3), Coords(2, 3), Coords(3, 3)];
  }

  /**
   * As written, getUpdatedFirstWord never fails, so the fallback at
   * src/interfaces/Props.tsx:29-35 is dead: "cat" is "placed" on a 2 by 2
   * grid off its edge, where the intended placement reports no fit.
   */
  lemma AsWrittenFirstWordOffGrid()
    ensures var placed := GetUpdatedFirstWord(MakeWord("cat"), 2, 2);
            IsPlaced(placed) && !AreWordCoordsOnModel(2, 2, placed.coords.value)
    ensures PlaceFirstWord(MakeWord("cat"), 2, 2).None?
  {
    var placed := GetUpdatedFirstWord(MakeWord("cat"), 2, 2);
    assert placed.coords.value[2] == Coords(1, 2);
    assert !OnModel(2, 2, placed.coords.value[2]);
  }
}
