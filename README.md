# Crossword layout core, modelled in Dafny

This project models the crossword layout logic of a small puzzle generator. It covers two source files.

`src/interfaces/Word.tsx` (module `Word`, file `word.dfy`) holds the word geometry and candidate generation:
- the record helpers;
- the expansion of one shared-letter cell into a word's full coordinate list;
- the centred placement of the first word;
- the generation of placement candidates from crossings.

`src/interfaces/Props.tsx` (module `Props`, file `props.dfy`) holds the initialisation:
- the blank grid;
- the sampling of distinct words;
- the enumeration of every letter crossing;
- the assembly of the initial state record.

The external modules are only modelled as far as the core uses them:
- `PuzModelCell` (`puz_model_cell.dfy`) provides coordinates, `getCoordsGeneric` and the on-grid test.
- `Xing` (`xing.dfy`) provides the crossing records.
- `Wrappers` (`wrappers.dfy`) provides `Option` and `Result`.

Coordinates are unbounded integers, because a layout can run off the grid at either edge. A JavaScript `null` or `undefined` is modelled as `None`.

Every loop of the source is a `method` with loop invariants. Most methods are proved equal to a specification function, and the properties the source promises are proved as lemmas about those functions. Two are not: `InitPuzModel` is specified by the predicate `IsBlankGrid`, which `BlankGridUnique` shows determines the grid, and `InitProps` is specified field by field. Where a loop nest was too large to verify as one method, its inner loops are separate methods:
- the two loops of getWordCoordsFromLetterCoords are `PrependLetters` and `AppendLetters`;
- the two inner loops of initXings are `PushLetterXings` and `PushPairXings`;
- initWords is split into `SampleDistinctWords`, `MakeWordsArr` and `FindFirstFitting`.

The random word supplier is an injected finite sequence:
- `batch` is what `randomWords(wordsQty)` returned;
- `extra` is the successive results of `randomWords(1)`.

When the supply runs out before the set is large enough, initialisation reports `Failure(SupplierExhausted)`. The source loops forever in that case.

Edge cases of the source that shape the model:
- **Out-of-range letter index.** The first loop still runs and yields `letterIdxInWord + 1` cells, so `WordCoordsFromLetterCoords` is total.
- **Empty word texts.** The source does not reject them, so `InitWordsWellFormed` assumes every sampled text is non-empty.
- **Sampling loop bound.** The sampling loop has no bound; the finite supply above stands in for it.
- **First-word fallback.** `getUpdatedFirstWord` never fails, though its callers test for failure (see Findings).

## Model

| member | source | states |
|---|---|---|
| Word.MakeWord | src/interfaces/Word.tsx:74-80 | the new word has the given text, no coordinates and no orientation, so it is unplaced and consistent |
| Word.GetUpdatedWord | src/interfaces/Word.tsx:82-92 | the text is kept; orientation and coordinates are set together to the given values |
| Word.GetWord | src/interfaces/Word.tsx:70-72 | a word is found exactly when some entry has the text; the one found is the first entry with that text |
| Word.GetDisplayedWords | src/interfaces/Word.tsx:148-154 | the result is an order-preserving subsequence of the list; it holds every placed word as often as the list does, and no unplaced word |
| Word.WordCoordsFromLetterCoords | src/interfaces/Word.tsx:105-127 | for a valid letter index there is one cell per letter; the cell at the letter index is the given cell |
| Word.WordCoordsContiguous | src/interfaces/Word.tsx:110-125 | consecutive cells keep the static axis and step by +1 along the dynamic one (column for Across, row for Down) |
| Word.GenericIsLetterCoords | src/interfaces/Word.tsx:110-114 | the `getCoordsGeneric` cell built for position i, with the static position and offset taken from the given cell, is letter i's cell |
| Word.GetWordCoordsFromLetterCoords | src/interfaces/Word.tsx:105-127 | the cells built by the two loops are exactly `WordCoordsFromLetterCoords` |
| Word.PrependLetters | src/interfaces/Word.tsx:115-121 | the first loop (prepending) yields the cells from the word's start up to the given one |
| Word.AppendLetters | src/interfaces/Word.tsx:122-126 | the second loop (appending) completes the prefix to the full list |
| Word.GetUpdatedFirstWord | src/interfaces/Word.tsx:129-142 | as written: text kept, placed Across, one cell per letter of a non-empty text, the middle letter at (⌊H/2⌋, ⌊W/2⌋), every cell on row ⌊H/2⌋; it is always a placed word |
| Word.PlaceFirstWord | src/interfaces/Word.tsx:129-142 | corrected first-word placement: the same placed word, on the grid, and it exists exactly when the grid has a row and is at least as wide as the word (one cell for an empty text) |
| Word.GetXingRoles | src/interfaces/Word.tsx:48-49 | a crossing is actionable exactly when one side is placed; that side is the displayed one and the other is the non-displayed one |
| Word.AnchorLetterCoords | src/interfaces/Word.tsx:50-52 | corrected anchor lookup: a cell exists exactly when the displayed endpoint's word is found and placed with a cell at the endpoint's letter index, and it is that word's cell there |
| Word.AnchorLetterCoordsAsWritten | src/interfaces/Word.tsx:50-52 | as-written anchor lookup from the non-displayed endpoint: nothing whenever that word is missing or unplaced; otherwise its cell at the letter index |
| Word.CandidateFor | src/interfaces/Word.tsx:48-65 | none when both or neither side is placed; otherwise the two endpoints are carried unchanged, and the cells are the non-displayed side laid out through the displayed word's anchor cell and lie on the grid |
| Word.Candidates | src/interfaces/Word.tsx:36-68 | no more candidates than crossings, and every candidate's cells are on the grid |
| Word.MakeWordCandidatesFromXings | src/interfaces/Word.tsx:36-68 | the loop's result is exactly `Candidates` of the crossings |
| Word.CandidatesOrigins | src/interfaces/Word.tsx:47-66 | candidate p comes from crossing idx[p]; the positions strictly increase, so order is kept and there is at most one per crossing; every crossing with a candidate is represented |
| Word.CandidateForWellFormed | src/interfaces/Word.tsx:48-58 | for distinct, consistent words whose placed entries have one cell per letter, and valid letter indices: the anchor cell exists, the layout has one cell per letter and shares the anchor cell, and a candidate exists exactly when the layout is on the grid |
| Word.AsWrittenAnchorAlwaysFails | src/interfaces/Word.tsx:50-52 | as written, the anchor cell is read from the unplaced word, so no actionable crossing yields an anchor |
| Word.CatCarCandidates | src/interfaces/Word.tsx:47-65 | "cat" placed Across on (2,2)-(2,4) on a 5 by 5 grid: the as-written lookup fails; the intended one proposes "car" Down on (2,2),(3,2),(4,2) through "c" and on (1,3),(2,3),(3,3) through "a" |
| Word.AsWrittenFirstWordOffGrid | src/interfaces/Word.tsx:129-142 | as written, "cat" on a 2 by 2 grid is still placed, with cells off the grid; the corrected placement reports no fit |
| Props.InitPuzModel | src/interfaces/Props.tsx:39-52 | H rows of W cells; cell (i, j) has coordinates (i, j), content "*" and no labels |
| Props.BlankGridUnique | src/interfaces/Props.tsx:39-52 | the blank grid is determined by its size |
| Props.MatchesMembers | src/interfaces/Props.tsx:56-60 | the enumerated matches are exactly the (h < j, i, k) with valid indices and equal letters |
| Props.MatchesSorted | src/interfaces/Props.tsx:56-59 | the matches come in strictly increasing lexicographic (h, i, j, k) order, so none repeats |
| Props.InitXings | src/interfaces/Props.tsx:54-75 | the four-deep loop nest produces exactly the two crossings of each match, in match order |
| Props.PushLetterXings | src/interfaces/Props.tsx:58-71 | the loops over j and k append the crossings of letter i of word h with every later word |
| Props.PushPairXings | src/interfaces/Props.tsx:59-70 | the loop over k appends both crossings for every letter of word j equal to letter i of word h |
| Props.InitXingsCount | src/interfaces/Props.tsx:56-69 | there are exactly 2 × the number of letter matches crossings |
| Props.NoXingsForFewerThanTwoWords | src/interfaces/Props.tsx:56 | fewer than two words give no crossing |
| Props.InitXingsShape | src/interfaces/Props.tsx:56-68 | crossing q comes from match q/2, of positions h < j with valid indices and equal letters; (h@i Across, j@k Down) comes first, then (h@i Down, j@k Across); the orientations are opposite; distinct words never cross themselves |
| Props.DedupProperties | src/interfaces/Props.tsx:20 | the de-duplicated list has no repeats, the same members, and is no longer than its input |
| Props.DedupFirstOccurrenceOrder | src/interfaces/Props.tsx:20-22 | the distinct words keep the order of their first occurrences |
| Props.GrowProperties | src/interfaces/Props.tsx:21-22 | the loop stops at the first prefix with at least wordsQty distinct words, every shorter prefix examined having fewer; the count is exact when it starts at or below wordsQty; it fails only when the whole supply has fewer |
| Props.SampleWordsProperties | src/interfaces/Props.tsx:20-22 | the sampled words are distinct; they are the distinct words of the shortest prefix of the supply, at least the first batch, that holds wordsQty of them; there are exactly wordsQty of them when the first batch has at most that many distinct words |
| Props.SampleDistinctWords | src/interfaces/Props.tsx:20-22 | the set grown by the loop is exactly `SampleWords`, or `None` when the supply runs out |
| Props.MakeWords | src/interfaces/Props.tsx:23-24 | one unplaced word per text, in order |
| Props.MakeWordsArr | src/interfaces/Props.tsx:23-24 | the `forEach` loop yields exactly `MakeWords` |
| Props.FirstFitting | src/interfaces/Props.tsx:25-34 | the position found fits and no earlier position fits; `None` means no position fits |
| Props.FindFirstFitting | src/interfaces/Props.tsx:25-34 | trying `wordsArr[0]` and then every word with a `break` yields the placement of the first fitting word |
| Props.GetWordsWithUpdatedWord | src/interfaces/Props.tsx:36 | every entry with the placed word's text is replaced by it; every other entry is kept |
| Props.InitWords | src/interfaces/Props.tsx:16-37 | the method computes exactly `InitWordsSpec` |
| Props.InitWordsNoneIffNothingFits | src/interfaces/Props.tsx:29-35 | no words are returned exactly when no sampled word fits the grid |
| Props.InitWordsPlacesFirstFitting | src/interfaces/Props.tsx:25-36 | the returned words are the sampled texts in order; the first fitting one is placed Across, centred and on the grid; all others are unplaced |
| Props.InitWordsWellFormed | src/interfaces/Props.tsx:16-37 | with non-empty texts, the returned words are distinct and consistent, and the placed one has one cell per letter |
| Props.InitProps | src/interfaces/Props.tsx:87-103 | failure exactly when the supply runs out; otherwise wordsQty, width and height are echoed and dispWordsQty is 1; words are those of initWords; crossings are absent exactly when words are, and are initXings of the words otherwise; the grid is a fresh blank grid |

## Left out

- The `random-words` library (src/interfaces/Props.tsx:14, 20, 22) is a foreign, nondeterministic source. It becomes the injected finite sequences `batch` and `extra`. Running out of supply is `Failure(SupplierExhausted)`; the source would loop forever.
- `PuzModelCell` internals (`makePuzModelCell`, `getPuzModelWithAddedWord`) are not modelled. `getCoordsGeneric` and `areWordCoordsOnModel` are modelled by their meaning only: a coordinate pair with the given components, and every cell within `0 ≤ row < H`, `0 ≤ col < W`.
- Writing words into grid cells and the across/down cell labels are left out.
- `getPuzModelWithAddedWord` is imported at src/interfaces/Props.tsx:12 but never called.
- The returned grid is rebuilt at src/interfaces/Props.tsx:101, so the centred word is never written into it. This is modelled as written: `InitProps` returns a fresh blank grid. Applying the word would need the grid writing left out above.
- `getDisplayedXingWord` and `getNonDisplayedXingWord` are in the `Xing` module, which is not part of this model. They are modelled as "the placed side" and "the unplaced side", defined only when exactly one side is placed (`GetXingRoles`).
- CandidateFor skips a crossing whose displayed letter index is beyond the placed word's coordinates. The source would read `undefined` there and then throw a TypeError at src/interfaces/Word.tsx:112, reading a component of `undefined`, which aborts the whole candidate generation.
- `getWordWithAddedIsAcross` and `getWordWithAddedPos` (src/interfaces/Word.tsx:94-103) are left out. Each sets one placement field without the other, so they break the both-or-neither placement invariant.
- `getWordCoords` and `getWordPosSafe` (src/interfaces/Word.tsx:144-150) are plain field reads. They appear as `coords.value` and `IsPlaced`.
- `makeWordCandidate` (src/interfaces/Word.tsx:24-34) is the `WordCandidate` constructor.
- `getWordsWithUpdatedWord` is imported from `./Word` at src/interfaces/Props.tsx:6, but the Word.tsx shown does not define it. `GetWordsWithUpdatedWord` models it as replacing every entry with the same text.
- initWords receives the grid's height and width instead of the grid. The source passes the grid object where `getUpdatedFirstWord` expects its dimensions.
- An empty word list (wordsQty ≤ 0) is modelled as "no word fits". The source would throw reading `wordsArr[0].word`.
- InitWordsWellFormed: requires every sampled text to be non-empty. For an empty text the first placement has one cell rather than zero.
- The interfaces and `WordCandidateArgs` are type declarations only. React rendering and the user's choice among candidates are left out.
- Strings are sequences of characters. JavaScript's UTF-16 code units are modelled as plain characters.

## Findings

| source | as written | input that shows it | evidently intended | confidence | as-written member | corrected member |
|---|---|---|---|---|---|---|
| src/interfaces/Word.tsx:50-52 | the anchor cell is read from the coordinates of the non-displayed word, which is unplaced, so its coordinates are `null` | "cat" placed Across on (2,2),(2,3),(2,4), "car" unplaced, crossing ("cat"@0 Across, "car"@0 Down) on a 5 by 5 grid: the lookup reads `null[0]` | read the placed word's cell at the displayed endpoint's letter index; "car" is then proposed Down on (2,2),(3,2),(4,2) | high (not executed) | Word.AnchorLetterCoordsAsWritten, Word.AsWrittenAnchorAlwaysFails, Word.CatCarCandidates | Word.AnchorLetterCoords, Word.CandidateFor |
| src/interfaces/Word.tsx:129-142 | getUpdatedFirstWord always returns a placed word, so the fallback at src/interfaces/Props.tsx:29-35 never runs, and a word wider than the grid is "placed" off it; the callers at src/interfaces/Props.tsx:26 and :31 also pass the grid object as the height and no width | "cat" on a 2 by 2 grid: cells (1,0),(1,1),(1,2), the last one off the grid | return nothing when the centred word does not fit, so that the next word is tried | high (not executed) | Word.GetUpdatedFirstWord, Word.AsWrittenFirstWordOffGrid | Word.PlaceFirstWord |
