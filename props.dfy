/**
 * Initialisation of a puzzle (src/interfaces/Props.tsx): the blank grid, the
 * sampled distinct words with the first one that fits centred, and every
 * crossing between them.
 */
module Props {
  import opened Wrappers
  import opened PuzModelCell
  import opened Xing
  import opened Word

  // ---------------------------------------------------------------------
  // The grid

  /** The placeholder cell at (i, j): content "*" and no across or down label. */
  function BlankCell(i: int, j: int): PuzModelCell
  {
    PuzModelCell(Coords(i, j), "*", "", "")
  }

  /** How many times a loop counting up from 0 while below `n` runs. */
  function Count(n: int): nat
  {
    if n > 0 then n else 0
  }

  /** `h` rows of `w` placeholder cells, cell (i, j) at coordinates [i, j]. */
  predicate IsBlankGrid(g: PuzModel, h: int, w: int)
  {
    && |g| == Count(h)
    && (forall i | 0 <= i < |g| :: |g[i]| == Count(w))
    && (forall i, j | 0 <= i < |g| && 0 <= j < |g[i]| :: g[i][j] == BlankCell(i, j))
  }

  /** initPuzModel: nested loops pushing rows of placeholder cells. */
  method InitPuzModel(puzHeight: int, puzWidth: int) returns (puzModel: PuzModel)
    ensures IsBlankGrid(puzModel, puzHeight, puzWidth)
  {
    puzModel := [];
    var i := 0;
    while i < puzHeight
      invariant 0 <= i <= Count(puzHeight)
      invariant |puzModel| == i
      invariant forall r | 0 <= r < i :: |puzModel[r]| == Count(puzWidth)
      invariant forall r, j | 0 <= r < i && 0 <= j < |puzModel[r]| :: puzModel[r][j] == BlankCell(r, j)
    {
      var row: seq<PuzModelCell> := [];
      var j := 0;
      while j < puzWidth
        invariant 0 <= j <= Count(puzWidth)
        invariant |row| == j
        invariant forall c | 0 <= c < j :: row[c] == BlankCell(i, c)
      {
        row := row + [PuzModelCell(Coords(i, j), "*", "", "")];
        j := j + 1;
      }
      puzModel := puzModel + [row];
      i := i + 1;
    }
  }

  /** There is only one blank grid of each size. */
  lemma BlankGridUnique(g1: PuzModel, g2: PuzModel, h: int, w: int)
    requires IsBlankGrid(g1, h, w) && IsBlankGrid(g2, h, w)
    ensures g1 == g2
  {
    forall i | 0 <= i < |g1| ensures g1[i] == g2[i] {
      assert forall j | 0 <= j < |g1[i]| :: g1[i][j] == g2[i][j];
    }
  }

  // ---------------------------------------------------------------------
  // Crossings

  /** A letter match: letter `i` of word `h` equals letter `k` of word `j`. */
  datatype Match = Match(h: nat, i: nat, j: nat, k: nat)

  /** `m` names two different list positions `h < j` and equal letters at valid indices. */
  predicate IsMatch(ws: seq<Word>, m: Match)
  {
    m.h < m.j < |ws| && m.i < |ws[m.h].word| && m.k < |ws[m.j].word| &&
    ws[m.h].word[m.i] == ws[m.j].word[m.k]
  }

  /** Crossings `2q` and `2q + 1` of `xs` are the two crossings of match `q`. */
  predicate Paired(ws: seq<Word>, xs: seq<Xing>, ms: seq<Match>)
  {
    |xs| == 2 * |ms| &&
    forall q | 0 <= q < |ms| :: xs[2 * q] == MatchXings(ws, ms[q])[0] && xs[2 * q + 1] == MatchXings(ws, ms[q])[1]
  }

  lemma PairedExtend(ws: seq<Word>, xs: seq<Xing>, ms: seq<Match>, m: Match)
    requires Paired(ws, xs, ms)
    ensures Paired(ws, xs + [MatchXings(ws, m)[0]] + [MatchXings(ws, m)[1]], ms + [m])
  {
    var xs', ms' := xs + [MatchXings(ws, m)[0]] + [MatchXings(ws, m)[1]], ms + [m];
    forall q | 0 <= q < |ms'| ensures xs'[2 * q] == MatchXings(ws, ms'[q])[0] && xs'[2 * q + 1] == MatchXings(ws, ms'[q])[1] {
      if q < |ms| {
        assert ms'[q] == ms[q];
      }
    }
  }

  lemma PairedJoin(ws: seq<Word>, x1: seq<Xing>, x2: seq<Xing>, m1: seq<Match>, m2: seq<Match>)
    requires Paired(ws, x1, m1) && Paired(ws, x2, m2)
    ensures Paired(ws, x1 + x2, m1 + m2)
  {
    var xs, ms := x1 + x2, m1 + m2;
    forall q | 0 <= q < |ms| ensures xs[2 * q] == MatchXings(ws, ms[q])[0] && xs[2 * q + 1] == MatchXings(ws, ms[q])[1] {
      if q < |m1| {
        assert ms[q] == m1[q];
      } else {
        var r := q - |m1|;
        assert ms[q] == m2[r];
        assert xs[2 * q] == x2[2 * r] && xs[2 * q + 1] == x2[2 * r + 1];
      }
    }
  }

  /** Paired crossings are exactly `XingsOf` the matches. */
  lemma PairedIsXingsOf(ws: seq<Word>, xs: seq<Xing>, ms: seq<Match>)
    requires Paired(ws, xs, ms)
    ensures xs == XingsOf(ws, ms)
  {
    var ys := XingsOf(ws, ms);
    forall q | 0 <= q < |xs| ensures xs[q] == ys[q] {
      var p := q / 2;
      if q % 2 == 0 {
        assert q == 2 * p;
      } else {
        assert q == 2 * p + 1;
      }
    }
  }

  /** The length of word `n`, 0 past the end of the list. */
  function LenAt(ws: seq<Word>, n: nat): nat
  {
    if n < |ws| then |ws[n].word| else 0
  }

  /** Letters `i` of word `h` and `k` of word `j` are equal (false when either is out of range). */
  predicate SameLetter(ws: seq<Word>, h: nat, i: nat, j: nat, k: nat)
  {
    h < |ws| && j < |ws| && i < |ws[h].word| && k < |ws[j].word| && ws[h].word[i] == ws[j].word[k]
  }

  /** The innermost loop: matches of letter `i` of word `h` against letters `0 .. k-1` of word `j`. */
  function KMatches(ws: seq<Word>, h: nat, i: nat, j: nat, k: nat): seq<Match>
  {
    if k == 0 then []
    else if SameLetter(ws, h, i, j, k - 1) then KMatches(ws, h, i, j, k - 1) + [Match(h, i, j, k - 1)]
    else KMatches(ws, h, i, j, k - 1)
  }

  /** The loop over `j`: matches of letter `i` of word `h` against words `h+1 .. j-1`. */
  function JMatches(ws: seq<Word>, h: nat, i: nat, j: nat): seq<Match>
  {
    if j <= h + 1 then []
    else JMatches(ws, h, i, j - 1) + KMatches(ws, h, i, j - 1, LenAt(ws, j - 1))
  }

  /** The loop over `i`: matches of letters `0 .. i-1` of word `h` against all later words. */
  function IMatches(ws: seq<Word>, h: nat, i: nat): seq<Match>
  {
    if i == 0 then []
    else IMatches(ws, h, i - 1) + JMatches(ws, h, i - 1, |ws|)
  }

  /** The loop over `h`: matches whose first word lies before position `h`. */
  function HMatches(ws: seq<Word>, h: nat): seq<Match>
  {
    if h == 0 then []
    else HMatches(ws, h - 1) + IMatches(ws, h - 1, LenAt(ws, h - 1))
  }

  /** Every letter match, in the loop nest's order (`h < words.length - 1` bounds the outer loop). */
  function Matches(ws: seq<Word>): seq<Match>
  {
    HMatches(ws, if |ws| == 0 then 0 else |ws| - 1)
  }

  lemma {:induction false} KMatchesMembers(ws: seq<Word>, h: nat, i: nat, j: nat, k: nat)
    requires h < j < |ws| && i < |ws[h].word| && k <= |ws[j].word|
    ensures forall m :: m in KMatches(ws, h, i, j, k) <==>
                        m.h == h && m.i == i && m.j == j && m.k < k && ws[h].word[i] == ws[j].word[m.k]
  {
    if k > 0 {
      KMatchesMembers(ws, h, i, j, k - 1);
    }
  }

  lemma {:induction false} JMatchesMembers(ws: seq<Word>, h: nat, i: nat, j: nat)
    requires h < |ws| && i < |ws[h].word| && h < j <= |ws|
    ensures forall m :: m in JMatches(ws, h, i, j) <==>
                        m.h == h && m.i == i && h < m.j < j && m.k < |ws[m.j].word| && ws[h].word[i] == ws[m.j].word[m.k]
  {
    if j > h + 1 {
      JMatchesMembers(ws, h, i, j - 1);
      KMatchesMembers(ws, h, i, j - 1, |ws[j - 1].word|);
    }
  }

  lemma {:induction false} IMatchesMembers(ws: seq<Word>, h: nat, i: nat)
    requires h < |ws| && i <= |ws[h].word|
    ensures forall m :: m in IMatches(ws, h, i) <==> m.h == h && m.i < i && IsMatch(ws, m)
  {
    if i > 0 {
      IMatchesMembers(ws, h, i - 1);
      JMatchesMembers(ws, h, i - 1, |ws|);
    }
  }

  lemma {:induction false} HMatchesMembers(ws: seq<Word>, h: nat)
    requires h <= |ws|
    ensures forall m :: m in HMatches(ws, h) <==> m.h < h && IsMatch(ws, m)
  {
    if h > 0 {
      HMatchesMembers(ws, h - 1);
      IMatchesMembers(ws, h - 1, |ws[h - 1].word|);
    }
  }

  /** The enumeration holds every letter match between two different positions, and nothing else. */
  lemma MatchesMembers(ws: seq<Word>)
    ensures forall m :: m in Matches(ws) <==> IsMatch(ws, m)
  {
    HMatchesMembers(ws, if |ws| == 0 then 0 else |ws| - 1);
  }

  /** The text of word `n`; for a match the position is always in range. */
  function TextAt(ws: seq<Word>, n: nat): string
  {
    if n < |ws| then ws[n].word else ""
  }

  /** The two crossings a match yields: (h@i Across, j@k Down), then (h@i Down, j@k Across). */
  function MatchXings(ws: seq<Word>, m: Match): seq<Xing>
  {
    [ Xing(XingWord(TextAt(ws, m.h), m.i, true), XingWord(TextAt(ws, m.j), m.k, false)),
      Xing(XingWord(TextAt(ws, m.h), m.i, false), XingWord(TextAt(ws, m.j), m.k, true)) ]
  }

  /** The crossings of a list of matches: match `p` yields crossings `2p` and `2p + 1`. */
  function XingsOf(ws: seq<Word>, ms: seq<Match>): (r: seq<Xing>)
  {
    seq(2 * |ms|, q requires 0 <= q < 2 * |ms| => MatchXings(ws, ms[q / 2])[q % 2])
  }

  /** What the innermost loop has pushed after `k` steps. */
  function KXings(ws: seq<Word>, h: nat, i: nat, j: nat, k: nat): seq<Xing>
  {
    if k == 0 then []
    else if SameLetter(ws, h, i, j, k - 1) then
      KXings(ws, h, i, j, k - 1) + [Xing(XingWord(TextAt(ws, h), i, true), XingWord(TextAt(ws, j), k - 1, false))]
                                 + [Xing(XingWord(TextAt(ws, h), i, false), XingWord(TextAt(ws, j), k - 1, true))]
    else KXings(ws, h, i, j, k - 1)
  }

  /** What the loop over `j` has pushed once it reaches `j`. */
  function JXings(ws: seq<Word>, h: nat, i: nat, j: nat): seq<Xing>
  {
    if j <= h + 1 then []
    else JXings(ws, h, i, j - 1) + KXings(ws, h, i, j - 1, LenAt(ws, j - 1))
  }

  /** What the loop over `i` has pushed once it reaches `i`. */
  function IXings(ws: seq<Word>, h: nat, i: nat): seq<Xing>
  {
    if i == 0 then []
    else IXings(ws, h, i - 1) + JXings(ws, h, i - 1, |ws|)
  }

  /** What the loop over `h` has pushed once it reaches `h`. */
  function HXings(ws: seq<Word>, h: nat): seq<Xing>
  {
    if h == 0 then []
    else HXings(ws, h - 1) + IXings(ws, h - 1, LenAt(ws, h - 1))
  }

  lemma {:induction false} KXingsOfMatches(ws: seq<Word>, h: nat, i: nat, j: nat, k: nat)
    ensures Paired(ws, KXings(ws, h, i, j, k), KMatches(ws, h, i, j, k))
  {
    if k > 0 {
      KXingsOfMatches(ws, h, i, j, k - 1);
      if SameLetter(ws, h, i, j, k - 1) {
        PairedExtend(ws, KXings(ws, h, i, j, k - 1), KMatches(ws, h, i, j, k - 1), Match(h, i, j, k - 1));
      }
    }
  }

  lemma {:induction false} JXingsOfMatches(ws: seq<Word>, h: nat, i: nat, j: nat)
    ensures Paired(ws, JXings(ws, h, i, j), JMatches(ws, h, i, j))
  {
    if j > h + 1 {
      var n := LenAt(ws, j - 1);
      JXingsOfMatches(ws, h, i, j - 1);
      KXingsOfMatches(ws, h, i, j - 1, n);
      PairedJoin(ws, JXings(ws, h, i, j - 1), KXings(ws, h, i, j - 1, n), JMatches(ws, h, i, j - 1), KMatches(ws, h, i, j - 1, n));
    }
  }

  lemma {:induction false} IXingsOfMatches(ws: seq<Word>, h: nat, i: nat)
    ensures Paired(ws, IXings(ws, h, i), IMatches(ws, h, i))
  {
    if i > 0 {
      IXingsOfMatches(ws, h, i - 1);
      JXingsOfMatches(ws, h, i - 1, |ws|);
      PairedJoin(ws, IXings(ws, h, i - 1), JXings(ws, h, i - 1, |ws|), IMatches(ws, h, i - 1), JMatches(ws, h, i - 1, |ws|));
    }
  }

  lemma {:induction false} HXingsOfMatches(ws: seq<Word>, h: nat)
    ensures Paired(ws, HXings(ws, h), HMatches(ws, h))
  {
    if h > 0 {
      var n := LenAt(ws, h - 1);
      HXingsOfMatches(ws, h - 1);
      IXingsOfMatches(ws, h - 1, n);
      PairedJoin(ws, HXings(ws, h - 1), IXings(ws, h - 1, n), HMatches(ws, h - 1), IMatches(ws, h - 1, n));
    }
  }

  lemma KXingsStep(ws: seq<Word>, pre: seq<Xing>, h: nat, i: nat, j: nat, k: nat)
    requires h < j < |ws| && i < |ws[h].word| && k < |ws[j].word|
    ensures pre + KXings(ws, h, i, j, k + 1) ==
            if ws[h].word[i] == ws[j].word[k]
            then pre + KXings(ws, h, i, j, k) + [Xing(XingWord(ws[h].word, i, true), XingWord(ws[j].word, k, false))]
                                              + [Xing(XingWord(ws[h].word, i, false), XingWord(ws[j].word, k, true))]
            else pre + KXings(ws, h, i, j, k)
  {
    assert TextAt(ws, h) == ws[h].word && TextAt(ws, j) == ws[j].word;
  }

  /** The loop over `j` appends the crossings of word `j` to what it has pushed before. */
  lemma JXingsStep(ws: seq<Word>, pre: seq<Xing>, mid: seq<Xing>, h: nat, i: nat, j: nat)
    requires h < j < |ws| && mid == pre + JXings(ws, h, i, j)
    ensures mid + KXings(ws, h, i, j, |ws[j].word|) == pre + JXings(ws, h, i, j + 1)
  {
    assert LenAt(ws, j) == |ws[j].word|;
  }

  /** Appending to a sequence of crossings is associative. */
  lemma XingsAssoc(a: seq<Xing>, b: seq<Xing>, c: seq<Xing>)
    ensures a + (b + c) == a + b + c
  {
  }

  /** initXings: a four-deep loop nest over (h, i, j, k) pushing two crossings per equal-letter pair. */
  method InitXings(words: seq<Word>) returns (xings: seq<Xing>)
    ensures xings == XingsOf(words, Matches(words))
  {
    xings := [];
    var h := 0;
    while h < |words| - 1
      invariant 0 <= h <= |words|
      invariant |words| > 0 ==> h <= |words| - 1
      invariant xings == HXings(words, h)
    {
      ghost var beforeH := xings;
      var i := 0;
      while i < |words[h].word|
        invariant 0 <= i <= |words[h].word|
        invariant xings == beforeH + IXings(words, h, i)
      {
        xings := PushLetterXings(words, h, i, xings);
        XingsAssoc(beforeH, IXings(words, h, i), JXings(words, h, i, |words|));
        i := i + 1;
      }
      assert LenAt(words, h) == |words[h].word|;
      h := h + 1;
    }
    HXingsOfMatches(words, h);
    PairedIsXingsOf(words, xings, Matches(words));
  }

  /** The two inner loops of initXings, for letter `i` of word `h`: every later word `j`, every letter `k`. */
  method PushLetterXings(words: seq<Word>, h: nat, i: nat, xings0: seq<Xing>) returns (xings: seq<Xing>)
    requires h < |words| && i < |words[h].word|
    ensures xings == xings0 + JXings(words, h, i, |words|)
  {
    xings := xings0;
    var j := h + 1;
    while j < |words|
      invariant h + 1 <= j <= |words|
      invariant xings == xings0 + JXings(words, h, i, j)
    {
      JXingsStep(words, xings0, xings, h, i, j);
      xings := PushPairXings(words, h, i, j, xings);
      j := j + 1;
    }
  }

  /** The innermost loop: both crossings for every letter of word `j` equal to letter `i` of word `h`. */
  method PushPairXings(words: seq<Word>, h: nat, i: nat, j: nat, xings0: seq<Xing>) returns (xings: seq<Xing>)
    requires h < j < |words| && i < |words[h].word|
    ensures xings == xings0 + KXings(words, h, i, j, |words[j].word|)
  {
    xings := xings0;
    var k := 0;
    while k < |words[j].word|
      invariant 0 <= k <= |words[j].word|
      invariant xings == xings0 + KXings(words, h, i, j, k)
    {
      KXingsStep(words, xings0, h, i, j, k);
      if words[h].word[i] == words[j].word[k] {
        xings := xings + [Xing(XingWord(words[h].word, i, true), XingWord(words[j].word, k, false))];
        xings := xings + [Xing(XingWord(words[h].word, i, false), XingWord(words[j].word, k, true))];
      }
      k := k + 1;
    }
  }

  // ---------------------------------------------------------------------
  // Properties of the crossings

  /** Lexicographic order on (h, i, j, k), the order of the loop nest. */
  predicate Before(a: Match, b: Match)
  {
    a.h < b.h || (a.h == b.h && (a.i < b.i || (a.i == b.i && (a.j < b.j || (a.j == b.j && a.k < b.k)))))
  }

  predicate SortedMatches(ms: seq<Match>)
  {
    forall p, q | 0 <= p < q < |ms| :: Before(ms[p], ms[q])
  }

  lemma SortedAppend(a: seq<Match>, b: seq<Match>)
    requires SortedMatches(a) && SortedMatches(b)
    requires forall x, y | x in a && y in b :: Before(x, y)
    ensures SortedMatches(a + b)
  {
    var ab := a + b;
    forall p, q | 0 <= p < q < |ab| ensures Before(ab[p], ab[q]) {
      if q < |a| {
        assert ab[p] == a[p] && ab[q] == a[q];
      } else if p >= |a| {
        assert ab[p] == b[p - |a|] && ab[q] == b[q - |a|];
      } else {
        assert ab[p] in a && ab[q] in b;
      }
    }
  }

  lemma {:induction false} KMatchesSorted(ws: seq<Word>, h: nat, i: nat, j: nat, k: nat)
    requires h < j < |ws| && i < |ws[h].word| && k <= |ws[j].word|
    ensures SortedMatches(KMatches(ws, h, i, j, k))
  {
    if k > 0 {
      KMatchesSorted(ws, h, i, j, k - 1);
      KMatchesMembers(ws, h, i, j, k - 1);
      SortedAppend(KMatches(ws, h, i, j, k - 1), if ws[h].word[i] == ws[j].word[k - 1] then [Match(h, i, j, k - 1)] else []);
    }
  }

  lemma {:induction false} JMatchesSorted(ws: seq<Word>, h: nat, i: nat, j: nat)
    requires h < |ws| && i < |ws[h].word| && h < j <= |ws|
    ensures SortedMatches(JMatches(ws, h, i, j))
  {
    if j > h + 1 {
      JMatchesSorted(ws, h, i, j - 1);
      KMatchesSorted(ws, h, i, j - 1, |ws[j - 1].word|);
      JMatchesMembers(ws, h, i, j - 1);
      KMatchesMembers(ws, h, i, j - 1, |ws[j - 1].word|);
      SortedAppend(JMatches(ws, h, i, j - 1), KMatches(ws, h, i, j - 1, |ws[j - 1].word|));
    }
  }

  lemma {:induction false} IMatchesSorted(ws: seq<Word>, h: nat, i: nat)
    requires h < |ws| && i <= |ws[h].word|
    ensures SortedMatches(IMatches(ws, h, i))
  {
    if i > 0 {
      IMatchesSorted(ws, h, i - 1);
      JMatchesSorted(ws, h, i - 1, |ws|);
      IMatchesMembers(ws, h, i - 1);
      JMatchesMembers(ws, h, i - 1, |ws|);
      SortedAppend(IMatches(ws, h, i - 1), JMatches(ws, h, i - 1, |ws|));
    }
  }

  lemma {:induction false} HMatchesSorted(ws: seq<Word>, h: nat)
    requires h <= |ws|
    ensures SortedMatches(HMatches(ws, h))
  {
    if h > 0 {
      HMatchesSorted(ws, h - 1);
      IMatchesSorted(ws, h - 1, |ws[h - 1].word|);
      HMatchesMembers(ws, h - 1);
      IMatchesMembers(ws, h - 1, |ws[h - 1].word|);
      SortedAppend(HMatches(ws, h - 1), IMatches(ws, h - 1, |ws[h - 1].word|));
    }
  }

  /** The matches come in lexicographic order of (h, i, j, k), so none is repeated. */
  lemma MatchesSorted(ws: seq<Word>)
    ensures SortedMatches(Matches(ws))
    ensures forall p, q | 0 <= p < q < |Matches(ws)| :: Matches(ws)[p] != Matches(ws)[q]
  {
    HMatchesSorted(ws, if |ws| == 0 then 0 else |ws| - 1);
  }

  /** The set of all letter matches {(h < j, i, k) : words[h][i] == words[j][k]}. */
  function MatchSet(ws: seq<Word>): set<Match>
  {
    set h, i, j, k | 0 <= h < j < |ws| && 0 <= i < |ws[h].word| && 0 <= k < |ws[j].word| &&
                     ws[h].word[i] == ws[j].word[k] :: Match(h, i, j, k)
  }

  lemma {:induction false} DistinctCard<T>(s: seq<T>)
    requires forall p, q | 0 <= p < q < |s| :: s[p] != s[q]
    ensures |set x | x in s| == |s|
  {
    if s != [] {
      var init := s[..|s| - 1];
      DistinctCard(init);
      assert (set x | x in s) == (set x | x in init) + {s[|s| - 1]};
      assert s[|s| - 1] !in (set x | x in init);
    }
  }

  /** initXings returns exactly two crossings per letter match. */
  lemma InitXingsCount(ws: seq<Word>)
    ensures |XingsOf(ws, Matches(ws))| == 2 * |MatchSet(ws)|
  {
    MatchesSorted(ws);
    MatchesMembers(ws);
    DistinctCard(Matches(ws));
    assert (set x | x in Matches(ws)) == MatchSet(ws) by {
      forall m | m in MatchSet(ws) ensures m in Matches(ws) {
        assert IsMatch(ws, m);
      }
    }
  }

  /** With fewer than two words there is no crossing. */
  lemma NoXingsForFewerThanTwoWords(ws: seq<Word>)
    requires |ws| < 2
    ensures XingsOf(ws, Matches(ws)) == []
  {
    assert Matches(ws) == HMatches(ws, 0);
  }

  /**
   * Crossing `q` of initXings comes from match `q / 2`: its first endpoint is
   * word h at letter i, its second word j at letter k, h < j, the letters
   * are equal, the orientations are opposite (Across first for even `q`),
   * and a list of distinct words never crosses a word with itself.
   */
  lemma InitXingsShape(ws: seq<Word>, q: nat)
    requires q < 2 * |Matches(ws)|
    ensures var x := XingsOf(ws, Matches(ws))[q];
            var m := Matches(ws)[q / 2];
            && IsMatch(ws, m)
            && x.first == XingWord(ws[m.h].word, m.i, q % 2 == 0)
            && x.second == XingWord(ws[m.j].word, m.k, q % 2 == 1)
            && ValidXingWord(x.first) && ValidXingWord(x.second)
            && x.first.word[x.first.letterIdxInWord] == x.second.word[x.second.letterIdxInWord]
            && x.first.isAcross != x.second.isAcross
            && (WellFormedWords(ws) ==> x.first.word != x.second.word)
  {
    var ms := Matches(ws);
    var m := ms[q / 2];
    MatchesMembers(ws);
    assert m in ms;
    if q % 2 == 0 {
      assert q == 2 * (q / 2);
    } else {
      assert q == 2 * (q / 2) + 1;
    }
  }

  // ---------------------------------------------------------------------
  // Sampling distinct words

  predicate NoDuplicates(xs: seq<string>)
  {
    forall p, q | 0 <= p < q < |xs| :: xs[p] != xs[q]
  }

  /** Adding a word to an insertion-ordered set: appended unless already present. */
  function AddToSet(wordsSet: seq<string>, s: string): seq<string>
  {
    if s in wordsSet then wordsSet else wordsSet + [s]
  }

  /** The set built from a list: the distinct entries of `xs` in insertion order. */
  function Dedup(xs: seq<string>): seq<string>
  {
    if xs == [] then [] else AddToSet(Dedup(xs[..|xs| - 1]), xs[|xs| - 1])
  }

  /** The de-duplicated list has no repeats, the same members, and is no longer than the input. */
  lemma {:induction false} DedupProperties(xs: seq<string>)
    ensures NoDuplicates(Dedup(xs))
    ensures forall s :: s in Dedup(xs) <==> s in xs
    ensures |Dedup(xs)| <= |xs|
  {
    if xs != [] {
      var init := xs[..|xs| - 1];
      DedupProperties(init);
      assert xs == init + [xs[|xs| - 1]];
    }
  }

  /** The position of the first occurrence of `s` in `xs`. */
  function IndexOf(xs: seq<string>, s: string): (n: nat)
    requires s in xs
    ensures n < |xs| && xs[n] == s && forall p | 0 <= p < n :: xs[p] != s
  {
    if xs[0] == s then 0 else 1 + IndexOf(xs[1..], s)
  }

  lemma IndexOfExtend(xs: seq<string>, x: string, s: string)
    requires s in xs
    ensures IndexOf(xs + [x], s) == IndexOf(xs, s)
  {
    var a, b := IndexOf(xs + [x], s), IndexOf(xs, s);
    assert (xs + [x])[b] == s;
  }

  /** The entries of `d` occur in `xs`, and in the order of their first occurrences there. */
  predicate InFirstOccurrenceOrder(d: seq<string>, xs: seq<string>)
  {
    forall p, q | 0 <= p < q < |d| :: d[p] in xs && d[q] in xs && IndexOf(xs, d[p]) < IndexOf(xs, d[q])
  }

  /** The de-duplicated list keeps the order in which the words first occur. */
  lemma {:induction false} DedupFirstOccurrenceOrder(xs: seq<string>)
    ensures InFirstOccurrenceOrder(Dedup(xs), xs)
  {
    if xs != [] {
      var init, x := xs[..|xs| - 1], xs[|xs| - 1];
      assert xs == init + [x];
      DedupFirstOccurrenceOrder(init);
      DedupProperties(init);
      OrderAddToSet(Dedup(init), init, x);
    }
  }

  /** Adding the next supplied word to the set keeps the first-occurrence order. */
  lemma OrderAddToSet(d: seq<string>, init: seq<string>, x: string)
    requires InFirstOccurrenceOrder(d, init)
    requires forall s :: s in d <==> s in init
    ensures InFirstOccurrenceOrder(AddToSet(d, x), init + [x])
  {
    forall s | s in d ensures IndexOf(init + [x], s) == IndexOf(init, s) < |init| {
      IndexOfExtend(init, x, s);
    }
    if x !in d {
      assert IndexOf(init + [x], x) == |init|;
    }
  }

  /**
   * The de-duplication loop, which adds supplied words while the set is short,
   * with `all` the words supplied so far and `n` of them taken. `None` when
   * the supply runs out first (the source would loop forever).
   */
  function Grow(wordsQty: int, all: seq<string>, n: nat): Option<seq<string>>
    requires n <= |all|
    decreases |all| - n
  {
    var d := Dedup(all[..n]);
    if |d| >= wordsQty then Some(d)
    else if n == |all| then None
    else Grow(wordsQty, all, n + 1)
  }

  /** The distinct words: `batch` is what `randomWords(wordsQty)` returned, `extra` the later `randomWords(1)` results. */
  function SampleWords(wordsQty: int, batch: seq<string>, extra: seq<string>): Option<seq<string>>
  {
    Grow(wordsQty, batch + extra, |batch|)
  }

  /** Grow stops at the first prefix with enough distinct words, and `None` means the supply never had enough. */
  lemma {:induction false} GrowProperties(wordsQty: int, all: seq<string>, n: nat) returns (stop: nat)
    requires n <= |all|
    decreases |all| - n
    ensures n <= stop <= |all|
    ensures forall m | n <= m < stop :: |Dedup(all[..m])| < wordsQty
    ensures Grow(wordsQty, all, n).Some? ==> Grow(wordsQty, all, n).value == Dedup(all[..stop]) && |Dedup(all[..stop])| >= wordsQty
    ensures Grow(wordsQty, all, n).Some? && |Dedup(all[..n])| <= wordsQty ==> |Dedup(all[..stop])| == wordsQty
    ensures Grow(wordsQty, all, n).None? ==> |Dedup(all)| < wordsQty
  {
    var d := Dedup(all[..n]);
    if |d| >= wordsQty {
      stop := n;
    } else if n == |all| {
      assert all[..n] == all;
      stop := n;
    } else {
      stop := GrowProperties(wordsQty, all, n + 1);
      DedupGrowsByOne(all, n);
    }
  }

  /** Taking one more supplied word adds at most one distinct word. */
  lemma DedupGrowsByOne(all: seq<string>, n: nat)
    requires n < |all|
    ensures |Dedup(all[..n + 1])| <= |Dedup(all[..n])| + 1
  {
    assert all[..n + 1][..n] == all[..n];
  }

  /**
   * The sampled words are distinct; they are the distinct words of the
   * shortest prefix of the supply, at least the first batch, that holds
   * `wordsQty` of them; when the first batch has at most `wordsQty` distinct
   * words there are exactly `wordsQty`; `None` only when the whole supply
   * holds fewer than `wordsQty` distinct words.
   */
  lemma SampleWordsProperties(wordsQty: int, batch: seq<string>, extra: seq<string>)
    ensures var r := SampleWords(wordsQty, batch, extra);
            && (r.Some? ==> NoDuplicates(r.value) && |r.value| >= wordsQty)
            && (r.Some? ==> exists n :: |batch| <= n <= |batch + extra| && r.value == Dedup((batch + extra)[..n]) &&
                                        forall m | |batch| <= m < n :: |Dedup((batch + extra)[..m])| < wordsQty)
            && (r.Some? && |Dedup(batch)| <= wordsQty ==> |r.value| == wordsQty)
            && (r.None? ==> |Dedup(batch + extra)| < wordsQty)
  {
    var stop := GrowProperties(wordsQty, batch + extra, |batch|);
    assert (batch + extra)[..|batch|] == batch;
    DedupProperties((batch + extra)[..stop]);
  }

  // ---------------------------------------------------------------------
  // Placing the first word

  /** One fresh, unplaced word per text, in the set's order. */
  function MakeWords(ts: seq<string>): (ws: seq<Word>)
    ensures |ws| == |ts|
    ensures forall q | 0 <= q < |ts| :: ws[q] == MakeWord(ts[q])
  {
    seq(|ts|, q requires 0 <= q < |ts| => MakeWord(ts[q]))
  }

  /** The position of the first word whose centred placement fits, if any. */
  function FirstFitting(ws: seq<Word>, puzHeight: int, puzWidth: int): (r: Option<nat>)
    ensures r.Some? ==> r.value < |ws| && PlaceFirstWord(ws[r.value], puzHeight, puzWidth).Some?
    ensures r.Some? ==> forall q | 0 <= q < r.value :: PlaceFirstWord(ws[q], puzHeight, puzWidth).None?
    ensures r.None? ==> forall q | 0 <= q < |ws| :: PlaceFirstWord(ws[q], puzHeight, puzWidth).None?
  {
    if ws == [] then None
    else if PlaceFirstWord(ws[0], puzHeight, puzWidth).Some? then Some(0)
    else
      match FirstFitting(ws[1..], puzHeight, puzWidth)
      case None => None
      case Some(f) => Some(f + 1)
  }

  /** getWordsWithUpdatedWord: every entry with the same text replaced by `w`. */
  function GetWordsWithUpdatedWord(w: Word, ws: seq<Word>): (r: seq<Word>)
    ensures |r| == |ws|
    ensures forall q | 0 <= q < |ws| :: r[q] == (if ws[q].word == w.word then w else ws[q])
  {
    seq(|ws|, q requires 0 <= q < |ws| => if ws[q].word == w.word then w else ws[q])
  }

  /** Why initialisation produced nothing at all. */
  datatype InitError = SupplierExhausted

  /** What initWords computes: the sampled words, unplaced except the first that fits. */
  function InitWordsSpec(wordsQty: int, puzHeight: int, puzWidth: int, batch: seq<string>, extra: seq<string>)
    : Result<Option<seq<Word>>, InitError>
  {
    match SampleWords(wordsQty, batch, extra)
    case None => Failure(SupplierExhausted)
    case Some(ts) =>
      var wordsArr := MakeWords(ts);
      match FirstFitting(wordsArr, puzHeight, puzWidth)
      case None => Success(None)
      case Some(f) => Success(Some(GetWordsWithUpdatedWord(PlaceFirstWord(wordsArr[f], puzHeight, puzWidth).value, wordsArr)))
  }

  /**
   * The sampling loop of initWords: a set seeded with the first batch,
   * grown one supplied word at a time until it holds `wordsQty` words.
   */
  method SampleDistinctWords(wordsQty: int, batch: seq<string>, extra: seq<string>) returns (r: Option<seq<string>>)
    ensures r == SampleWords(wordsQty, batch, extra)
  {
    ghost var all := batch + extra;
    assert all[..|batch|] == batch;
    var wordsSet := Dedup(batch);
    var k := 0;
    while |wordsSet| < wordsQty && k < |extra|
      invariant 0 <= k <= |extra|
      invariant wordsSet == Dedup(all[..|batch| + k])
      invariant Grow(wordsQty, all, |batch| + k) == SampleWords(wordsQty, batch, extra)
    {
      SampleStep(wordsQty, all, |batch| + k, wordsSet, extra[k]);
      wordsSet := AddToSet(wordsSet, extra[k]);
      k := k + 1;
    }
    GrowStop(wordsQty, all, |batch| + k);
    if |wordsSet| < wordsQty {
      return None;
    }
    return Some(wordsSet);
  }

  /** One iteration of the sampling loop: the set takes the next word and Grow moves on with it. */
  lemma SampleStep(wordsQty: int, all: seq<string>, n: nat, wordsSet: seq<string>, x: string)
    requires n < |all| && wordsSet == Dedup(all[..n]) && |wordsSet| < wordsQty
    requires x == all[n]
    ensures AddToSet(wordsSet, x) == Dedup(all[..n + 1])
    ensures Grow(wordsQty, all, n) == Grow(wordsQty, all, n + 1)
  {
    DedupSnoc(all, n);
    GrowStep(wordsQty, all, n);
  }

  /** Taking one more supplied word adds it to the set. */
  lemma DedupSnoc(xs: seq<string>, n: nat)
    requires n < |xs|
    ensures Dedup(xs[..n + 1]) == AddToSet(Dedup(xs[..n]), xs[n])
  {
    assert xs[..n + 1][..n] == xs[..n];
  }

  /** While the set is short of `wordsQty` and supply remains, Grow takes the next word. */
  lemma GrowStep(wordsQty: int, all: seq<string>, n: nat)
    requires n < |all| && |Dedup(all[..n])| < wordsQty
    ensures Grow(wordsQty, all, n) == Grow(wordsQty, all, n + 1)
  {
  }

  /** Grow stops with the set once it is large enough, and with `None` once the supply is used up. */
  lemma GrowStop(wordsQty: int, all: seq<string>, n: nat)
    requires n <= |all|
    requires |Dedup(all[..n])| >= wordsQty || n == |all|
    ensures Grow(wordsQty, all, n) == if |Dedup(all[..n])| >= wordsQty then Some(Dedup(all[..n])) else None
  {
  }


  /**
   * initWords: sample distinct words, make them unplaced, then centre the
   * first one that fits. The grid is passed by its dimensions.
   */
  method InitWords(wordsQty: int, puzHeight: int, puzWidth: int, batch: seq<string>, extra: seq<string>)
    returns (r: Result<Option<seq<Word>>, InitError>)
    ensures r == InitWordsSpec(wordsQty, puzHeight, puzWidth, batch, extra)
  {
    var sampled := SampleDistinctWords(wordsQty, batch, extra);
    if sampled.None? {
      return Failure(SupplierExhausted);
    }
    var wordsArr := MakeWordsArr(sampled.value);
    var updatedFirstWord := FindFirstFitting(wordsArr, puzHeight, puzWidth);
    if updatedFirstWord.None? {
      return Success(None);
    }
    return Success(Some(GetWordsWithUpdatedWord(updatedFirstWord.value, wordsArr)));
  }

  /** The loop over the set that appends one fresh, unplaced word per text. */
  method MakeWordsArr(ts: seq<string>) returns (wordsArr: seq<Word>)
    ensures wordsArr == MakeWords(ts)
  {
    wordsArr := [];
    for n := 0 to |ts|
      invariant wordsArr == MakeWords(ts[..n])
    {
      wordsArr := wordsArr + [MakeWord(ts[n])];
    }
    assert ts[..|ts|] == ts;
  }

  /**
   * Try the first word, then every word from the start, stopping at the
   * first placement that fits; `None` when none fits.
   */
  method FindFirstFitting(wordsArr: seq<Word>, puzHeight: int, puzWidth: int) returns (updatedFirstWord: Option<Word>)
    ensures updatedFirstWord == match FirstFitting(wordsArr, puzHeight, puzWidth)
                                case None => None
                                case Some(f) => PlaceFirstWord(wordsArr[f], puzHeight, puzWidth)
  {
    updatedFirstWord := if |wordsArr| > 0 then PlaceFirstWord(wordsArr[0], puzHeight, puzWidth) else None;
    if updatedFirstWord.Some? {
      FirstFittingIs(wordsArr, puzHeight, puzWidth, 0);
      return;
    }
    var n := 0;
    while n < |wordsArr|
      invariant n <= |wordsArr|
      invariant updatedFirstWord.None?
      invariant forall q | 0 <= q < n :: PlaceFirstWord(wordsArr[q], puzHeight, puzWidth).None?
    {
      updatedFirstWord := PlaceFirstWord(wordsArr[n], puzHeight, puzWidth);
      if updatedFirstWord.Some? {
        FirstFittingIs(wordsArr, puzHeight, puzWidth, n);
        return;
      }
      n := n + 1;
    }
    FirstFittingIs(wordsArr, puzHeight, puzWidth, n);
  }

  /** FirstFitting is the first position whose placement fits, `None` if no position before `n` fits and `n` is the end. */
  lemma FirstFittingIs(ws: seq<Word>, puzHeight: int, puzWidth: int, n: nat)
    requires n <= |ws|
    requires forall q | 0 <= q < n :: PlaceFirstWord(ws[q], puzHeight, puzWidth).None?
    requires n < |ws| ==> PlaceFirstWord(ws[n], puzHeight, puzWidth).Some?
    ensures FirstFitting(ws, puzHeight, puzWidth) == if n < |ws| then Some(n) else None
  {
  }

  /** initWords yields no words exactly when none of the sampled words fits the grid. */
  lemma InitWordsNoneIffNothingFits(wordsQty: int, puzHeight: int, puzWidth: int, batch: seq<string>, extra: seq<string>)
    requires SampleWords(wordsQty, batch, extra).Some?
    ensures var ts := SampleWords(wordsQty, batch, extra).value;
            var r := InitWordsSpec(wordsQty, puzHeight, puzWidth, batch, extra);
            && r.Success?
            && (r.value.None? <==> forall q | 0 <= q < |ts| :: PlaceFirstWord(MakeWord(ts[q]), puzHeight, puzWidth).None?)
  {
    var ts := SampleWords(wordsQty, batch, extra).value;
    var wordsArr := MakeWords(ts);
    match FirstFitting(wordsArr, puzHeight, puzWidth)
    case None =>
    case Some(f) =>
      assert wordsArr[f] == MakeWord(ts[f]);
  }

  /**
   * When initWords yields words, they are the sampled texts in order; the
   * returned `f` is the first that fits, placed Across, centred and on the
   * grid; every other word is unplaced.
   */
  lemma InitWordsPlacesFirstFitting(wordsQty: int, puzHeight: int, puzWidth: int, batch: seq<string>, extra: seq<string>)
    returns (f: nat)
    requires SampleWords(wordsQty, batch, extra).Some?
    requires InitWordsSpec(wordsQty, puzHeight, puzWidth, batch, extra).Success?
    requires InitWordsSpec(wordsQty, puzHeight, puzWidth, batch, extra).value.Some?
    ensures var ts := SampleWords(wordsQty, batch, extra).value;
            var ws := InitWordsSpec(wordsQty, puzHeight, puzWidth, batch, extra).value.value;
            && |ws| == |ts| && f < |ws|
            && (forall q | 0 <= q < |ws| :: ws[q].word == ts[q])
            && ws[f] == GetUpdatedFirstWord(MakeWord(ts[f]), puzHeight, puzWidth)
            && AreWordCoordsOnModel(puzHeight, puzWidth, ws[f].coords.value)
            && (forall q | 0 <= q < f :: PlaceFirstWord(MakeWord(ts[q]), puzHeight, puzWidth).None?)
            && (forall q | 0 <= q < |ws| && q != f :: ws[q] == MakeWord(ts[q]))
  {
    var ts := SampleWords(wordsQty, batch, extra).value;
    SampleWordsProperties(wordsQty, batch, extra);
    var wordsArr := MakeWords(ts);
    f := FirstFitting(wordsArr, puzHeight, puzWidth).value;
    var p := PlaceFirstWord(wordsArr[f], puzHeight, puzWidth).value;
    assert p.word == ts[f];
    forall q | 0 <= q < |ts| && q != f
      ensures GetWordsWithUpdatedWord(p, wordsArr)[q] == MakeWord(ts[q])
    {
      assert ts[q] != ts[f];
    }
  }

  /** The words initWords yields are well formed when the placed one has text. */
  lemma InitWordsWellFormed(wordsQty: int, puzHeight: int, puzWidth: int, batch: seq<string>, extra: seq<string>)
    requires SampleWords(wordsQty, batch, extra).Some?
    requires InitWordsSpec(wordsQty, puzHeight, puzWidth, batch, extra).Success?
    requires InitWordsSpec(wordsQty, puzHeight, puzWidth, batch, extra).value.Some?
    requires forall q | 0 <= q < |SampleWords(wordsQty, batch, extra).value| :: SampleWords(wordsQty, batch, extra).value[q] != ""
    ensures WellFormedWords(InitWordsSpec(wordsQty, puzHeight, puzWidth, batch, extra).value.value)
  {
    var ts := SampleWords(wordsQty, batch, extra).value;
    var ws := InitWordsSpec(wordsQty, puzHeight, puzWidth, batch, extra).value.value;
    SampleWordsProperties(wordsQty, batch, extra);
    var f := InitWordsPlacesFirstFitting(wordsQty, puzHeight, puzWidth, batch, extra);
    assert |ws[f].coords.value| == |ws[f].word|;
    forall p, q | 0 <= p < q < |ws| ensures ws[p].word != ws[q].word {
      assert ws[p].word == ts[p] && ws[q].word == ts[q];
    }
  }

  // ---------------------------------------------------------------------
  // The assembled result

  /** The initial generation state handed to the renderer. */
  datatype Props = Props(
    wordsQty: int,
    puzWidth: int,
    puzHeight: int,
    dispWordsQty: int,
    words: Option<seq<Word>>,
    xings: Option<seq<Xing>>,
    puzModel: PuzModel)

  /**
   * initProps: builds a grid, initialises the words, enumerates the
   * crossings when there are words, and returns a grid built afresh, so
   * the centred word is never written into it.
   */
  method InitProps(wordsQty: int, puzHeight: int, puzWidth: int, batch: seq<string>, extra: seq<string>)
    returns (r: Result<Props, InitError>)
    ensures r.Failure? <==> SampleWords(wordsQty, batch, extra).None?
    ensures r.Success? ==>
              var p := r.value;
              && p.wordsQty == wordsQty && p.puzWidth == puzWidth && p.puzHeight == puzHeight
              && p.dispWordsQty == 1
              && p.words == InitWordsSpec(wordsQty, puzHeight, puzWidth, batch, extra).value
              && (p.xings.None? <==> p.words.None?)
              && (p.words.Some? ==> p.xings == Some(XingsOf(p.words.value, Matches(p.words.value))))
              && IsBlankGrid(p.puzModel, puzHeight, puzWidth)
  {
    var puzModel := InitPuzModel(puzHeight, puzWidth);
    var words := InitWords(wordsQty, puzHeight, puzWidth, batch, extra);
    if words.Failure? {
      return Failure(words.error);
    }
    var xings: Option<seq<Xing>> := None;
    if words.value.Some? {
      var xs := InitXings(words.value.value);
      xings := Some(xs);
    }
    // The grid is rebuilt here; the centred word is not applied to it.
    var freshModel := InitPuzModel(puzHeight, puzWidth);
    r := Success(Props(wordsQty, puzWidth, puzHeight, 1, words.value, xings, freshModel));
  }
}
