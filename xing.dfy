/** Crossing records. `makeXingWord(word, idx, isAcross)` is the `XingWord` constructor. */
module Xing {

  /**
   * One side of a crossing: if `word` were laid out with orientation
   * `isAcross`, its letter `letterIdxInWord` would sit on the shared cell.
   */
  datatype XingWord = XingWord(word: string, letterIdxInWord: nat, isAcross: bool)

  /** A crossing: the tuple `[XingWord, XingWord]`. */
  datatype Xing = Xing(first: XingWord, second: XingWord)

  /** The letter index points into the word. */
  predicate ValidXingWord(xw: XingWord)
  {
    xw.letterIdxInWord < |xw.word|
  }
}
