/** core/utils/tokenizer.py: the naive whitespace token count. */
module Tokenizer {
  import opened PyStrings

  /**
   * Counts the positions where a run of non-whitespace characters begins,
   * scanning left to right; `afterSpace` says whether the character before `s`
   * was whitespace (or there was none).
   */
  function RunStartsFrom(s: string, afterSpace: bool): nat
  {
    if s == [] then 0
    else (if afterSpace && !IsSpace(s[0]) then 1 else 0) + RunStartsFrom(s[1..], IsSpace(s[0]))
  }

  /** The number of maximal non-whitespace runs of `s`. */
  function RunStarts(s: string): nat
  {
    RunStartsFrom(s, true)
  }

  lemma {:induction false} RunStartsAtBoundary(s: string)
    requires s == [] || IsSpace(s[0])
    ensures RunStartsFrom(s, false) == RunStartsFrom(s, true)
  {
  }

  /** Inside a word, the scan finds nothing new until the word ends. */
  lemma {:induction false} RunStartsSkipsWord(s: string)
    ensures RunStartsFrom(s, false) == RunStartsFrom(s[RunLength(s)..], true)
    decreases |s|
  {
    if s == [] || IsSpace(s[0]) {
      RunStartsAtBoundary(s);
    } else {
      RunStartsSkipsWord(s[1..]);
      assert s[1..][RunLength(s[1..])..] == s[RunLength(s)..];
    }
  }

  lemma {:induction false} WordCountIsRunStarts(s: string)
    ensures |Words(s)| == RunStarts(s)
    decreases |s|
  {
    if s != [] {
      if IsSpace(s[0]) {
        WordCountIsRunStarts(s[1..]);
      } else {
        var n := RunLength(s);
        WordCountIsRunStarts(s[n..]);
        RunStartsSkipsWord(s[1..]);
        assert s[1..][RunLength(s[1..])..] == s[n..];
      }
    }
  }

  /** `count_tokens(text)`: `len(text.split())`, which is the number of maximal non-whitespace runs. */
  function CountTokens(text: string): (r: nat)
    ensures r == RunStarts(text)
  {
    WordCountIsRunStarts(text);
    |Words(text)|
  }

  /** An empty or all-whitespace text has no tokens, and only such a text. */
  lemma {:induction false} CountTokensZero(text: string)
    ensures CountTokens(text) == 0 <==> AllSpace(text)
  {
    NoWordsIffAllSpace(text);
  }

  /** The count is positive exactly when the text holds a non-whitespace character. */
  lemma {:induction false} CountTokensPositive(text: string)
    ensures CountTokens(text) > 0 <==> exists i :: 0 <= i < |text| && !IsSpace(text[i])
  {
    NoWordsIffAllSpace(text);
  }

  /** Joining two texts with a space adds their counts. */
  lemma {:induction false} CountTokensOfJoin(a: string, b: string)
    ensures CountTokens(a + " " + b) == CountTokens(a) + CountTokens(b)
  {
    WordsAcrossSpace(a, b);
  }
}
