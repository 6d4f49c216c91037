/**
 * core/chains/cohesive_script_builder.py: the narration segmentation and
 * timing engine. A narration is split into sentences, the sentences are packed
 * greedily into segments under a word budget, the segment list is brought to
 * the exact target count by merging or splitting, and the segments receive
 * back-to-back time slots; a validator then annotates each segment by its
 * speaking time.
 */
module CohesiveScriptBuilder {
  import opened Wrappers
  import opened PyStrings
  import opened PyNumeric

  /** The exceptions the modelled code can raise. */
  datatype Error = IndexError | ZeroDivisionError

  /** The `warning` text of a validated segment, kept as the numbers it reports. */
  datatype Warning = TooManyWords(words: nat, duration: real) | TooFewWords(words: nat, duration: real)

  /**
   * One segment dictionary. `startTime`/`endTime` are set once the count is final;
   * `warning`, `suggestedEdit` and `timingStatus` are the keys the validator adds.
   */
  datatype Segment = Segment(
    text: string,
    words: nat,
    duration: real,
    index: int,
    startTime: Option<real>,
    endTime: Option<real>,
    warning: Option<Warning>,
    suggestedEdit: Option<string>,
    timingStatus: Option<string>)

  /** The dictionary `{'text', 'words', 'duration', 'index'}` the segmenter creates. */
  function NewSegment(text: string, words: nat, duration: real, index: int): Segment
  {
    Segment(text, words, duration, index, None, None, None, None, None)
  }

  // ---------------------------------------------------------------------------
  // Plan arithmetic of generate_cohesive_script

  /** `int(total_duration / segment_duration)`: the number of whole segments that fit. */
  function SegmentCount(totalDuration: real, segmentDuration: real): (r: Result<int, Error>)
    ensures r.Failure? <==> segmentDuration == 0.0
    ensures r.Success? && 0.0 <= totalDuration && 0.0 < segmentDuration ==>
      && 0 <= r.value
      && r.value as real * segmentDuration <= totalDuration
      && totalDuration < (r.value + 1) as real * segmentDuration
  {
    if segmentDuration == 0.0 then Failure(ZeroDivisionError)
    else
      ScaleTrunc(totalDuration, segmentDuration);
      Success(Trunc(totalDuration / segmentDuration))
  }

  /** For non-negative `t` and positive `s`, `Trunc(t / s) <= t / s < Trunc(t / s) + 1` multiplied back by `s`. */
  lemma {:induction false} ScaleTrunc(t: real, s: real)
    ensures 0.0 <= t && 0.0 < s ==> Trunc(t / s) as real * s <= t < (Trunc(t / s) + 1) as real * s
  {
    if 0.0 <= t && 0.0 < s {
      ScaleTruncNonNegative(t, s);
    }
  }

  lemma {:induction false} ScaleTruncNonNegative(t: real, s: real)
    requires 0.0 <= t && 0.0 < s
    ensures Trunc(t / s) as real * s <= t < (Trunc(t / s) + 1) as real * s
  {
    var x := t / s;
    assert x * s == t;
    assert 0.0 <= x by {
      if x < 0.0 { ScaleLess(x, 0.0, s); }
    }
    var n := Trunc(x);
    assert (n + 1) as real == n as real + 1.0;
    ScaleLess(n as real, x, s);
    assert x < (n + 1) as real;
    ScaleLess(x, (n + 1) as real, s);
    assert x * s < (n + 1) as real * s;
    assert t < (n + 1) as real * s;
  }

  /** Multiplying both sides of `a <= b` (or `a < b`) by a positive factor. */
  lemma {:induction false} ScaleLess(a: real, b: real, s: real)
    requires 0.0 < s && a <= b
    ensures a * s <= b * s
    ensures a < b ==> a * s < b * s
  {
    assert b * s - a * s == (b - a) * s;
  }

  /** `int((total_duration / 60) * wpm)`: the whole number of words spoken in the total duration. */
  function TargetWords(totalDuration: real, wpm: real): (r: int)
    ensures 0.0 <= totalDuration && 0.0 <= wpm ==>
      && 0 <= r
      && r as real * 60.0 <= totalDuration * wpm
      && totalDuration * wpm < (r + 1) as real * 60.0
  {
    Trunc(totalDuration / 60.0 * wpm)
  }

  /** The configuration defaults (45 s in 5 s segments at 150 wpm) ask for 9 segments and 112 words. */
  lemma {:induction false} DefaultPlan()
    ensures SegmentCount(45.0, 5.0) == Success(9)
    ensures TargetWords(45.0, 150.0) == 112
  {
    assert 45.0 / 5.0 == 9.0;
    assert 45.0 / 60.0 * 150.0 == 112.5;
  }

  /** `int((segment_duration / 60) * wpm * buffer)`: the greedy packing's words-per-segment budget. */
  function WordBudget(segmentDuration: real, wpm: real, buffer: real): (r: int)
    ensures 0.0 <= segmentDuration / 60.0 * wpm * buffer ==>
      && r as real <= segmentDuration / 60.0 * wpm * buffer
      && segmentDuration / 60.0 * wpm * buffer < r as real + 1.0
  {
    Trunc(segmentDuration / 60.0 * wpm * buffer)
  }

  // ---------------------------------------------------------------------------
  // Sentence splitting: re.split(r'(?<=[.!?])\s+', text)

  predicate IsTerminal(c: char)
  {
    c == '.' || c == '!' || c == '?'
  }

  /** The pattern matches at `p`: the character before is `.`, `!` or `?` and the one at `p` is whitespace. */
  predicate BoundaryAt(t: string, p: int)
  {
    1 <= p < |t| && IsTerminal(t[p - 1]) && IsSpace(t[p])
  }

  /** The first match position at or after `from`, or `|t|` when there is none. */
  function NextBoundary(t: string, from: nat): (p: nat)
    requires 1 <= from <= |t|
    ensures from <= p <= |t|
    ensures p < |t| ==> BoundaryAt(t, p)
    decreases |t| - from
  {
    if from == |t| then |t|
    else if BoundaryAt(t, from) then from
    else NextBoundary(t, from + 1)
  }

  /** There is no match between `from` and the one found. */
  lemma {:induction false} NextBoundaryIsFirst(t: string, from: nat)
    requires 1 <= from <= |t|
    ensures forall q :: from <= q < NextBoundary(t, from) ==> !BoundaryAt(t, q)
    decreases |t| - from
  {
    if from < |t| && !BoundaryAt(t, from) {
      NextBoundaryIsFirst(t, from + 1);
    }
  }

  /** The end of the whitespace run `\s+` that starts at `i` (or `i` itself when there is none). */
  function SpaceRunEnd(t: string, i: nat): (j: nat)
    requires i <= |t|
    ensures i <= j <= |t|
    ensures j < |t| ==> !IsSpace(t[j])
    decreases |t| - i
  {
    if i < |t| && IsSpace(t[i]) then SpaceRunEnd(t, i + 1) else i
  }

  lemma {:induction false} SpaceRunIsSpace(t: string, i: nat)
    requires i <= |t|
    ensures AllSpace(t[i..SpaceRunEnd(t, i)])
    decreases |t| - i
  {
    if i < |t| && IsSpace(t[i]) {
      SpaceRunIsSpace(t, i + 1);
      assert t[i..SpaceRunEnd(t, i)] == [t[i]] + t[i + 1..SpaceRunEnd(t, i)];
    }
  }

  /**
   * `re.split(r'(?<=[.!?])\s+', t)`: the text is cut at every whitespace run that
   * follows `.`, `!` or `?`, and the runs are dropped.
   */
  function SplitSentences(t: string): (pieces: seq<string>)
    ensures |pieces| >= 1
    decreases |t|
  {
    if |t| == 0 then [t]
    else
      var p := NextBoundary(t, 1);
      if p == |t| then [t]
      else [t[..p]] + SplitSentences(t[SpaceRunEnd(t, p)..])
  }

  predicate Terminated(sentence: string)
  {
    sentence != [] && IsTerminal(sentence[|sentence| - 1])
  }

  /** Every sentence but the last is non-empty and ends with `.`, `!` or `?`. */
  lemma {:induction false} SentencesTerminated(t: string)
    ensures forall k :: 0 <= k < |SplitSentences(t)| - 1 ==> Terminated(SplitSentences(t)[k])
    decreases |t|
  {
    if |t| > 0 {
      var p := NextBoundary(t, 1);
      if p < |t| {
        var pieces := SplitSentences(t);
        var tail := SplitSentences(t[SpaceRunEnd(t, p)..]);
        SentencesTerminated(t[SpaceRunEnd(t, p)..]);
        assert pieces == [t[..p]] + tail;
        assert BoundaryAt(t, p);
        assert t[..p][p - 1] == t[p - 1];
        forall k | 0 <= k < |pieces| - 1
          ensures Terminated(pieces[k])
        {
          if k > 0 {
            assert pieces[k] == tail[k - 1];
          } else {
            assert pieces[0] == t[..p];
          }
        }
      }
    }
  }

  /** No sentence holds a boundary any more: splitting again would not cut it. */
  lemma {:induction false} SentencesUnsplittable(t: string)
    ensures forall k, q :: 0 <= k < |SplitSentences(t)| ==> !BoundaryAt(SplitSentences(t)[k], q)
    decreases |t|
  {
    if |t| > 0 {
      var p := NextBoundary(t, 1);
      NextBoundaryIsFirst(t, 1);
      PrefixWithoutBoundary(t, p);
      if p == |t| {
        assert t[..p] == t;
      } else {
        var pieces := SplitSentences(t);
        var tail := SplitSentences(t[SpaceRunEnd(t, p)..]);
        SentencesUnsplittable(t[SpaceRunEnd(t, p)..]);
        assert pieces == [t[..p]] + tail;
        forall k, q | 0 <= k < |pieces|
          ensures !BoundaryAt(pieces[k], q)
        {
          if k > 0 {
            assert pieces[k] == tail[k - 1];
          } else {
            assert pieces[0] == t[..p];
          }
        }
      }
    }
  }

  lemma {:induction false} PrefixWithoutBoundary(t: string, p: nat)
    requires p <= |t|
    requires forall q :: 1 <= q < p ==> !BoundaryAt(t, q)
    ensures forall q :: !BoundaryAt(t[..p], q)
  {
    forall q | BoundaryAt(t[..p], q) ensures false {
      assert BoundaryAt(t, q);
    }
  }

  /** Splitting into sentences keeps every word, in order. */
  lemma {:induction false} WordsOfSentences(t: string)
    ensures WordsOf(SplitSentences(t)) == Words(t)
    decreases |t|
  {
    if |t| > 0 {
      var p := NextBoundary(t, 1);
      if p == |t| {
        assert WordsOf(SplitSentences(t)) == Words(t) + WordsOf([]);
      } else {
        var q := SpaceRunEnd(t, p);
        SpaceRunIsSpace(t, p);
        assert BoundaryAt(t, p);
        assert t == t[..p] + t[p..q] + t[q..];
        WordsAcrossSpaces(t[..p], t[p..q], t[q..]);
        WordsOfSentences(t[q..]);
        assert SplitSentences(t)[1..] == SplitSentences(t[q..]);
      }
    }
  }

  /** A text without a sentence boundary comes back as its only sentence. */
  lemma {:induction false} OneSentence(t: string)
    requires forall q :: !BoundaryAt(t, q)
    ensures SplitSentences(t) == [t]
  {
    if |t| > 0 {
      var p := NextBoundary(t, 1);
      assert !BoundaryAt(t, p);
    }
  }

  // ---------------------------------------------------------------------------
  // Segment lists

  /** The words of a segment list, read in order. */
  function SegmentWords(segs: seq<Segment>): seq<string>
  {
    if segs == [] then [] else Words(segs[0].text) + SegmentWords(segs[1..])
  }

  lemma {:induction false} SegmentWordsAppend(a: seq<Segment>, b: seq<Segment>)
    ensures SegmentWords(a + b) == SegmentWords(a) + SegmentWords(b)
  {
    if a != [] {
      assert (a + b)[0] == a[0];
      assert (a + b)[1..] == a[1..] + b;
      SegmentWordsAppend(a[1..], b);
    } else {
      assert a + b == b;
    }
  }

  /** Lists with the same texts position by position have the same words. */
  lemma {:induction false} SameTextsSameWords(a: seq<Segment>, b: seq<Segment>)
    requires |a| == |b|
    requires forall i :: 0 <= i < |a| ==> a[i].text == b[i].text
    ensures SegmentWords(a) == SegmentWords(b)
  {
    if a != [] {
      SameTextsSameWords(a[1..], b[1..]);
    }
  }

  /**
   * Replacing the run `segs[m..m + len]` by `repl`: positions before the run stay,
   * positions after it shift by `|repl| - len`, and when `repl` carries the run's
   * words the whole list keeps its words.
   */
  lemma {:induction false} SplicePositions(segs: seq<Segment>, m: nat, len: nat, repl: seq<Segment>, next: seq<Segment>)
    requires m + len <= |segs| && next == segs[..m] + repl + segs[m + len..]
    ensures |next| == |segs| - len + |repl|
    ensures forall i :: 0 <= i < m ==> next[i] == segs[i]
    ensures forall i :: 0 <= i < |repl| ==> next[m + i] == repl[i]
    ensures forall i :: m + |repl| <= i < |next| ==> next[i] == segs[i - |repl| + len]
  {
    var head := segs[..m] + repl;
    assert next == head + segs[m + len..];
    forall i | 0 <= i < m
      ensures next[i] == segs[i]
    {
      assert next[i] == head[i];
    }
    forall i | 0 <= i < |repl|
      ensures next[m + i] == repl[i]
    {
      assert next[m + i] == head[m + i];
    }
    forall i | m + |repl| <= i < |next|
      ensures next[i] == segs[i - |repl| + len]
    {
      assert next[i] == segs[m + len..][i - |head|];
    }
  }

  lemma {:induction false} SpliceWords(segs: seq<Segment>, m: nat, len: nat, repl: seq<Segment>, next: seq<Segment>)
    requires m + len <= |segs| && next == segs[..m] + repl + segs[m + len..]
    requires SegmentWords(repl) == SegmentWords(segs[m..m + len])
    ensures SegmentWords(next) == SegmentWords(segs)
  {
    var head, mid, tail := segs[..m], segs[m..m + len], segs[m + len..];
    assert segs == head + mid + tail;
    SegmentWordsOfThree(head, repl, tail);
    SegmentWordsOfThree(head, mid, tail);
  }

  lemma {:induction false} SpliceCounted(segs: seq<Segment>, m: nat, len: nat, repl: seq<Segment>, next: seq<Segment>, segmentDuration: real)
    requires m + len <= |segs| && next == segs[..m] + repl + segs[m + len..]
    requires Indexed(segs, segmentDuration)
    requires forall i :: 0 <= i < |repl| ==> Counted(repl[i], segmentDuration)
    ensures forall i :: 0 <= i < |next| ==> Counted(next[i], segmentDuration)
  {
    SplicePositions(segs, m, len, repl, next);
    forall i | 0 <= i < |next|
      ensures Counted(next[i], segmentDuration)
    {
      if i < m {
        assert next[i] == segs[i];
      } else if i < m + |repl| {
        assert next[m + (i - m)] == repl[i - m];
      } else {
        assert next[i] == segs[i - |repl| + len];
      }
    }
  }

  lemma {:induction false} SegmentWordsOfThree(a: seq<Segment>, b: seq<Segment>, c: seq<Segment>)
    ensures SegmentWords(a + b + c) == SegmentWords(a) + SegmentWords(b) + SegmentWords(c)
  {
    SegmentWordsAppend(a + b, c);
    SegmentWordsAppend(a, b);
  }

  lemma {:induction false} SegmentWordsOfTwo(x: Segment, y: Segment)
    ensures SegmentWords([x, y]) == Words(x.text) + Words(y.text)
  {
    assert [x, y][1..] == [y];
    assert SegmentWords([y]) == Words(y.text) + SegmentWords([]);
  }

  lemma {:induction false} SegmentWordsOfOne(x: Segment)
    ensures SegmentWords([x]) == Words(x.text)
  {
    assert SegmentWords([x]) == Words(x.text) + SegmentWords([]);
  }

  /** A segment dictionary as the segmenter makes it: its `words` counts its text, it lasts one slot, and it is not yet timed or validated. */
  predicate Counted(seg: Segment, segmentDuration: real)
  {
    && seg.words == |Words(seg.text)|
    && seg.duration == segmentDuration
    && seg.startTime.None? && seg.endTime.None?
    && seg.warning.None? && seg.suggestedEdit.None? && seg.timingStatus.None?
  }

  /** Every segment is counted and its `index` is its 1-based position. */
  predicate Indexed(segs: seq<Segment>, segmentDuration: real)
  {
    forall k :: 0 <= k < |segs| ==> Counted(segs[k], segmentDuration) && segs[k].index == k + 1
  }

  function Concat(groups: seq<seq<string>>): seq<string>
  {
    if groups == [] then [] else groups[0] + Concat(groups[1..])
  }

  lemma {:induction false} ConcatAppend(groups: seq<seq<string>>, g: seq<string>)
    ensures Concat(groups + [g]) == Concat(groups) + g
  {
    if groups != [] {
      assert (groups + [g])[1..] == groups[1..] + [g];
      ConcatAppend(groups[1..], g);
    } else {
      assert Concat([g]) == g + Concat([]);
    }
  }

  // ---------------------------------------------------------------------------
  // Phase 1: greedy packing (lines 67-95)

  /** The segment dictionaries built from sentence groups: group k joined, counted, with index k + 1. */
  function PackedSegments(groups: seq<seq<string>>, segmentDuration: real): (segs: seq<Segment>)
    ensures |segs| == |groups|
  {
    if groups == [] then []
    else
      var n := |groups| - 1;
      PackedSegments(groups[..n], segmentDuration)
        + [NewSegment(Join(" ", groups[n]), |WordsOf(groups[n])|, segmentDuration, n + 1)]
  }

  lemma {:induction false} PackedSegmentAt(groups: seq<seq<string>>, segmentDuration: real, k: nat)
    requires k < |groups|
    ensures PackedSegments(groups, segmentDuration)[k]
         == NewSegment(Join(" ", groups[k]), |WordsOf(groups[k])|, segmentDuration, k + 1)
  {
    var n := |groups| - 1;
    if k < n {
      PackedSegmentAt(groups[..n], segmentDuration, k);
    }
  }

  /** Each packed segment is a counted dictionary of its group's words. */
  lemma {:induction false} PackedSegmentCounted(groups: seq<seq<string>>, segmentDuration: real, k: nat, seg: Segment)
    requires k < |groups| && seg == PackedSegments(groups, segmentDuration)[k]
    ensures seg.text == Join(" ", groups[k]) && seg.index == k + 1
    ensures seg.words == |WordsOf(groups[k])| && Counted(seg, segmentDuration)
  {
    PackedSegmentAt(groups, segmentDuration, k);
    WordsOfJoin(groups[k]);
  }

  /** The packed segments carry exactly the words of the sentences, in order. */
  lemma {:induction false} PackedSegmentsWords(groups: seq<seq<string>>, segmentDuration: real)
    ensures SegmentWords(PackedSegments(groups, segmentDuration)) == WordsOf(Concat(groups))
  {
    if groups != [] {
      var n := |groups| - 1;
      var init := PackedSegments(groups[..n], segmentDuration);
      var last := NewSegment(Join(" ", groups[n]), |WordsOf(groups[n])|, segmentDuration, n + 1);
      assert PackedSegments(groups, segmentDuration) == init + [last];
      calc {
        SegmentWords(init + [last]);
      == { SegmentWordsAppend(init, [last]); }
        SegmentWords(init) + SegmentWords([last]);
      == { PackedSegmentsWords(groups[..n], segmentDuration); SegmentWordsOfOne(last); WordsOfJoin(groups[n]); }
        WordsOf(Concat(groups[..n])) + WordsOf(groups[n]);
      == { WordsOfAppend(Concat(groups[..n]), groups[n]); }
        WordsOf(Concat(groups[..n]) + groups[n]);
      == { assert groups == groups[..n] + [groups[n]]; ConcatAppend(groups[..n], groups[n]); }
        WordsOf(Concat(groups));
      }
    }
  }

  predicate NonEmptyGroups(groups: seq<seq<string>>)
  {
    forall k :: 0 <= k < |groups| ==> groups[k] != []
  }

  /** A group is over budget only when it is a single sentence. */
  predicate WithinBudget(groups: seq<seq<string>>, budget: int)
  {
    forall k :: 0 <= k < |groups| ==> |groups[k]| == 1 || |WordsOf(groups[k])| <= budget
  }

  /** A group was closed only because the next group's first sentence did not fit. */
  predicate Greedy(groups: seq<seq<string>>, budget: int)
    requires NonEmptyGroups(groups)
  {
    forall k :: 0 <= k < |groups| - 1 ==> |WordsOf(groups[k])| + |Words(groups[k + 1][0])| > budget
  }

  /** Non-empty groups concatenate to nothing only when there are none. */
  lemma {:induction false} ConcatOfNonEmptyGroups(groups: seq<seq<string>>)
    requires NonEmptyGroups(groups)
    ensures Concat(groups) == [] ==> groups == []
  {
    if groups != [] {
      assert groups[0] != [];
    }
  }

  /** The properties of the closed groups of a packing. */
  predicate ClosedGroupsOk(groups: seq<seq<string>>, budget: int)
  {
    NonEmptyGroups(groups) && WithinBudget(groups, budget) && Greedy(groups, budget)
  }

  /** Closing group `g` after `groups` keeps the packing properties. */
  lemma {:induction false} CloseGroup(groups: seq<seq<string>>, g: seq<string>, budget: int)
    requires NonEmptyGroups(groups) && WithinBudget(groups, budget) && Greedy(groups, budget)
    requires g != [] && (|g| == 1 || |WordsOf(g)| <= budget)
    requires groups != [] ==> |WordsOf(groups[|groups| - 1])| + |Words(g[0])| > budget
    ensures NonEmptyGroups(groups + [g]) && WithinBudget(groups + [g], budget) && Greedy(groups + [g], budget)
  {
    var gs := groups + [g];
    CloseGroupNonEmpty(groups, g, gs);
    CloseGroupWithinBudget(groups, g, gs, budget);
    CloseGroupGreedy(groups, g, gs, budget);
  }

  lemma {:induction false} CloseGroupNonEmpty(groups: seq<seq<string>>, g: seq<string>, gs: seq<seq<string>>)
    requires gs == groups + [g]
    requires NonEmptyGroups(groups) && g != []
    ensures NonEmptyGroups(gs)
  {
    forall k | 0 <= k < |gs|
      ensures gs[k] != []
    {
      if k < |groups| {
        assert gs[k] == groups[k];
      }
    }
  }

  lemma {:induction false} CloseGroupWithinBudget(groups: seq<seq<string>>, g: seq<string>, gs: seq<seq<string>>, budget: int)
    requires gs == groups + [g]
    requires WithinBudget(groups, budget) && (|g| == 1 || |WordsOf(g)| <= budget)
    ensures WithinBudget(gs, budget)
  {
    forall k | 0 <= k < |gs|
      ensures |gs[k]| == 1 || |WordsOf(gs[k])| <= budget
    {
      if k < |groups| {
        assert gs[k] == groups[k];
      }
    }
  }

  lemma {:induction false} CloseGroupGreedy(groups: seq<seq<string>>, g: seq<string>, gs: seq<seq<string>>, budget: int)
    requires gs == groups + [g]
    requires NonEmptyGroups(groups) && Greedy(groups, budget) && g != []
    requires groups != [] ==> |WordsOf(groups[|groups| - 1])| + |Words(g[0])| > budget
    requires NonEmptyGroups(gs)
    ensures Greedy(gs, budget)
  {
    forall k | 0 <= k < |gs| - 1
      ensures |WordsOf(gs[k])| + |Words(gs[k + 1][0])| > budget
    {
      assert gs[k] == groups[k];
      if k < |groups| - 1 {
        assert gs[k + 1] == groups[k + 1];
      } else {
        assert gs[k + 1] == g;
      }
    }
  }

  /**
   * The greedy packing after reading `sentences` in order: the closed groups and
   * the open one. A sentence closes the open group when adding its words would
   * exceed the budget and the open group is not empty.
   */
  function PackState(sentences: seq<string>, budget: int): (state: (seq<seq<string>>, seq<string>))
    ensures sentences != [] ==> state.1 != [] && state.1[|state.1| - 1] == sentences[|sentences| - 1]
    ensures |state.0| <= |sentences|
    decreases |sentences|
  {
    if sentences == [] then ([], [])
    else
      var n := |sentences| - 1;
      var (groups, current) := PackState(sentences[..n], budget);
      if |WordsOf(current)| + |Words(sentences[n])| > budget && current != []
      then (groups + [current], [sentences[n]])
      else (groups, current + [sentences[n]])
  }

  /** The sentence groups of the packed segments: the closed groups and the open one, if any. */
  function Packing(sentences: seq<string>, budget: int): (groups: seq<seq<string>>)
    ensures Concat(groups) == sentences
    ensures sentences != [] ==> groups != [] && groups[|groups| - 1] != []
  {
    PackStateInvariant(sentences, budget);
    ConcatAppend(PackState(sentences, budget).0, PackState(sentences, budget).1);
    var (groups, current) := PackState(sentences, budget);
    if current == [] then groups else groups + [current]
  }

  /** What the packing state keeps while sentences are read. */
  ghost predicate PackStateOk(sentences: seq<string>, budget: int, groups: seq<seq<string>>, current: seq<string>)
  {
    ClosedGroupsOk(groups, budget) && OpenGroupOk(sentences, budget, groups, current)
  }

  /** The open group continues the closed ones, is non-empty once a sentence was read, and fits unless it is one sentence. */
  ghost predicate OpenGroupOk(sentences: seq<string>, budget: int, groups: seq<seq<string>>, current: seq<string>)
  {
    && Concat(groups) + current == sentences
    && (sentences != [] ==> current != [])
    && (|current| <= 1 || |WordsOf(current)| <= budget)
    && (groups != [] && current != [] ==> |WordsOf(groups[|groups| - 1])| + |Words(current[0])| > budget)
  }

  /** Closing the open group when sentence `s` does not fit keeps the packing state. */
  lemma {:induction false} PackCloseStep(sentences: seq<string>, s: string, next: seq<string>, budget: int,
                      groups: seq<seq<string>>, current: seq<string>, closed: seq<seq<string>>)
    requires next == sentences + [s] && closed == groups + [current]
    requires PackStateOk(sentences, budget, groups, current)
    requires |WordsOf(current)| + |Words(s)| > budget && current != []
    ensures PackStateOk(next, budget, closed, [s])
  {
    ConcatAppend(groups, current);
    CloseGroup(groups, current, budget);
    assert closed[|closed| - 1] == current;
  }

  /** Adding sentence `s` to the open group when it fits (or the group is empty) keeps the packing state. */
  lemma {:induction false} PackExtendStep(sentences: seq<string>, s: string, next: seq<string>, budget: int,
                       groups: seq<seq<string>>, current: seq<string>, extended: seq<string>)
    requires next == sentences + [s] && extended == current + [s]
    requires NonEmptyGroups(groups) && OpenGroupOk(sentences, budget, groups, current)
    requires |WordsOf(current)| + |Words(s)| <= budget || current == []
    ensures OpenGroupOk(next, budget, groups, extended)
  {
    assert Concat(groups) + extended == next;
    if current == [] {
      ConcatOfNonEmptyGroups(groups);
      assert sentences == Concat(groups);
    } else {
      WordsOfSingleton(s);
      WordsOfAppend(current, [s]);
      assert extended[0] == current[0];
    }
  }

  /** Reading one more sentence keeps the packing state. */
  lemma {:induction false} PackStateStep(sentences: seq<string>, s: string, next: seq<string>, budget: int)
    requires next == sentences + [s]
    requires PackStateOk(sentences, budget, PackState(sentences, budget).0, PackState(sentences, budget).1)
    ensures PackStateOk(next, budget, PackState(next, budget).0, PackState(next, budget).1)
  {
    var (groups, current) := PackState(sentences, budget);
    assert next[..|sentences|] == sentences;
    if |WordsOf(current)| + |Words(s)| > budget && current != [] {
      PackCloseStep(sentences, s, next, budget, groups, current, groups + [current]);
    } else {
      PackExtendStep(sentences, s, next, budget, groups, current, current + [s]);
    }
  }

  lemma {:induction false} PackStateInvariant(sentences: seq<string>, budget: int)
    ensures PackStateOk(sentences, budget, PackState(sentences, budget).0, PackState(sentences, budget).1)
    decreases |sentences|
  {
    if sentences != [] {
      var n := |sentences| - 1;
      PackStateInvariant(sentences[..n], budget);
      assert sentences[..n] + [sentences[n]] == sentences;
      PackStateStep(sentences[..n], sentences[n], sentences, budget);
    } else {
      assert Concat([]) + [] == sentences;
    }
  }

  /**
   * The packing regroups the sentences in order into non-empty groups; a group
   * exceeds the budget only when it is one sentence, and a group was closed
   * only because the next group's first sentence did not fit.
   */
  lemma {:induction false} PackingProperties(sentences: seq<string>, budget: int)
    ensures var groups := Packing(sentences, budget);
      && Concat(groups) == sentences
      && (groups == [] <==> sentences == [])
      && NonEmptyGroups(groups) && WithinBudget(groups, budget) && Greedy(groups, budget)
  {
    var (groups, current) := PackState(sentences, budget);
    PackStateInvariant(sentences, budget);
    if current != [] {
      var gs := groups + [current];
      ConcatAppend(groups, current);
      CloseGroup(groups, current, budget);
    } else {
      assert Concat(groups) + [] == Concat(groups);
    }
  }

  /** Closing one more group appends its segment, numbered after the others. */
  lemma {:induction false} PackedSegmentsSnoc(groups: seq<seq<string>>, g: seq<string>, segmentDuration: real, gs: seq<seq<string>>)
    requires gs == groups + [g]
    ensures PackedSegments(gs, segmentDuration)
         == PackedSegments(groups, segmentDuration) + [NewSegment(Join(" ", g), |WordsOf(g)|, segmentDuration, |groups| + 1)]
  {
    assert gs[..|groups|] == groups;
  }

  /** Reading sentence i advances the packing state by one step. */
  lemma {:induction false} PackStateNext(sentences: seq<string>, i: nat, budget: int)
    requires i < |sentences|
    ensures PackState(sentences[..i + 1], budget)
         == (var (groups, current) := PackState(sentences[..i], budget);
             if |WordsOf(current)| + |Words(sentences[i])| > budget && current != []
             then (groups + [current], [sentences[i]])
             else (groups, current + [sentences[i]]))
  {
    assert sentences[..i + 1][..i] == sentences[..i];
  }

  /** The segment dictionaries built by the packing loop (lines 67-95). */
  method PackSentences(sentences: seq<string>, budget: int, segmentDuration: real) returns (segs: seq<Segment>)
    ensures segs == PackedSegments(Packing(sentences, budget), segmentDuration)
  {
    segs := [];
    ghost var groups: seq<seq<string>> := [];
    var current: seq<string> := [];
    var currentWords := 0;
    for i := 0 to |sentences|
      invariant (groups, current) == PackState(sentences[..i], budget)
      invariant segs == PackedSegments(groups, segmentDuration)
      invariant currentWords == |WordsOf(current)|
    {
      var sentence := sentences[i];
      var sentenceWords := |Words(sentence)|;
      PackStateNext(sentences, i, budget);
      WordsOfSingleton(sentence);
      if currentWords + sentenceWords > budget && current != [] {
        PackedSegmentsSnoc(groups, current, segmentDuration, groups + [current]);
        segs := segs + [NewSegment(Join(" ", current), currentWords, segmentDuration, |segs| + 1)];
        groups := groups + [current];
        current := [sentence];
        currentWords := sentenceWords;
      } else {
        WordsOfAppend(current, [sentence]);
        current := current + [sentence];
        currentWords := currentWords + sentenceWords;
      }
    }
    assert sentences[..|sentences|] == sentences;
    if current != [] {
      PackedSegmentsSnoc(groups, current, segmentDuration, groups + [current]);
      segs := segs + [NewSegment(Join(" ", current), currentWords, segmentDuration, |segs| + 1)];
    }
  }

  /**
   * The packed segments: fresh, correctly counted and indexed dictionaries that
   * carry the sentences' words in order, one per group, each within the budget
   * unless it is a single sentence, each closed only when the next sentence
   * did not fit.
   */
  lemma {:induction false} PackedSegmentsOfSentences(sentences: seq<string>, budget: int, segmentDuration: real,
                                   groups: seq<seq<string>>, segs: seq<Segment>)
    requires groups == Packing(sentences, budget)
    requires segs == PackedSegments(groups, segmentDuration)
    ensures Indexed(segs, segmentDuration)
    ensures SegmentWords(segs) == WordsOf(sentences)
    ensures segs == [] <==> sentences == []
    ensures forall k :: 0 <= k < |segs| ==> segs[k].text == Join(" ", groups[k])
    ensures NonEmptyGroups(groups)
    ensures forall k :: 0 <= k < |segs| ==> |groups[k]| == 1 || segs[k].words <= budget
    ensures forall k :: 0 <= k < |segs| - 1 ==> segs[k].words + |Words(groups[k + 1][0])| > budget
  {
    PackingProperties(sentences, budget);
    PackedSegmentsWords(groups, segmentDuration);
    forall k | 0 <= k < |segs|
      ensures segs[k].text == Join(" ", groups[k]) && segs[k].index == k + 1
      ensures segs[k].words == |WordsOf(groups[k])| && Counted(segs[k], segmentDuration)
    {
      PackedSegmentCounted(groups, segmentDuration, k, segs[k]);
    }
  }

  /** Phase 1 on a whole script: at least one segment, indexed, holding the script's words. */
  lemma {:induction false} PackedScript(script: string, sentences: seq<string>, budget: int, segmentDuration: real, segs: seq<Segment>)
    requires sentences == SplitSentences(Strip(script))
    requires segs == PackedSegments(Packing(sentences, budget), segmentDuration)
    ensures |segs| >= 1 && Indexed(segs, segmentDuration) && SegmentWords(segs) == Words(script)
  {
    PackedSegmentsOfSentences(sentences, budget, segmentDuration, Packing(sentences, budget), segs);
    WordsOfSentences(Strip(script));
    WordsOfStrip(script);
  }

  // ---------------------------------------------------------------------------
  // Phase 2: merging (lines 98-116) and splitting (lines 119-154)

  function CombinedWords(segs: seq<Segment>, i: nat): nat
    requires i + 1 < |segs|
  {
    segs[i].words + segs[i + 1].words
  }

  /**
   * The adjacent pair with the fewest combined words, the leftmost on ties;
   * 0 when there is no pair.
   */
  method FindMergeIndex(segs: seq<Segment>) returns (m: nat)
    ensures |segs| < 2 ==> m == 0
    ensures |segs| >= 2 ==> m + 1 < |segs|
    ensures |segs| >= 2 ==> forall i :: 0 <= i < |segs| - 1 ==> CombinedWords(segs, m) <= CombinedWords(segs, i)
    ensures |segs| >= 2 ==> forall i :: 0 <= i < m ==> CombinedWords(segs, m) < CombinedWords(segs, i)
  {
    var minCombined: Option<nat> := None;  // float('inf')
    m := 0;
    for i := 0 to if |segs| >= 1 then |segs| - 1 else 0
      invariant i == 0 <==> minCombined.None?
      invariant i > 0 ==> m < i && minCombined.value == CombinedWords(segs, m)
      invariant i == 0 ==> m == 0
      invariant forall j :: 0 <= j < i ==> CombinedWords(segs, m) <= CombinedWords(segs, j)
      invariant forall j :: 0 <= j < m ==> CombinedWords(segs, m) < CombinedWords(segs, j)
    {
      var combined := segs[i].words + segs[i + 1].words;
      if minCombined.None? || combined < minCombined.value {
        minCombined := Some(combined);
        m := i;
      }
    }
  }

  /** The segment with the most words, the leftmost on ties (so 0 when every segment is empty of words). */
  method FindSplitIndex(segs: seq<Segment>) returns (k: nat)
    ensures |segs| == 0 ==> k == 0
    ensures |segs| > 0 ==> k < |segs|
    ensures |segs| > 0 ==> forall i :: 0 <= i < |segs| ==> segs[i].words <= segs[k].words
    ensures |segs| > 0 ==> forall i :: 0 <= i < k ==> segs[i].words < segs[k].words
  {
    var maxWords := 0;
    k := 0;
    for i := 0 to |segs|
      invariant i == 0 ==> k == 0 && maxWords == 0
      invariant i > 0 ==> k < i && maxWords == segs[k].words
      invariant forall j :: 0 <= j < i ==> segs[j].words <= maxWords
      invariant forall j :: 0 <= j < k ==> segs[j].words < maxWords
      invariant k == 0 || maxWords > 0
    {
      if segs[i].words > maxWords {
        maxWords := segs[i].words;
        k := i;
      }
    }
  }

  /**
   * The two texts a segment is split into: its sentences (re-split) are divided
   * at `len // 2`, and each half is joined with single spaces.
   */
  function SplitHalves(text: string): (halves: (string, string))
    ensures Words(halves.0) + Words(halves.1) == Words(text)
  {
    var sentences := SplitSentences(text);
    var mid := |sentences| / 2;
    WordsOfJoin(sentences[..mid]);
    WordsOfJoin(sentences[mid..]);
    assert sentences == sentences[..mid] + sentences[mid..];
    WordsOfAppend(sentences[..mid], sentences[mid..]);
    WordsOfSentences(text);
    (Join(" ", sentences[..mid]), Join(" ", sentences[mid..]))
  }

  /**
   * A segment of one sentence splits into an empty first half with no words
   * and a second half that is the whole text; the code raises no error.
   */
  lemma {:induction false} SplitOfOneSentence(text: string)
    requires forall q :: !BoundaryAt(text, q)
    ensures SplitHalves(text) == ("", text)
    ensures |Words(SplitHalves(text).0)| == 0
  {
    OneSentence(text);
  }

  /** The re-index loop: every segment gets its 1-based position. */
  method Reindex(segs: seq<Segment>) returns (r: seq<Segment>)
    ensures |r| == |segs|
    ensures forall i :: 0 <= i < |r| ==> r[i] == segs[i].(index := i + 1)
  {
    r := segs;
    for i := 0 to |r|
      invariant |r| == |segs|
      invariant forall j :: 0 <= j < i ==> r[j] == segs[j].(index := j + 1)
      invariant forall j :: i <= j < |r| ==> r[j] == segs[j]
    {
      r := r[i := r[i].(index := i + 1)];
    }
  }

  /** Re-indexing keeps the texts, so the words, and makes a list of counted segments indexed. */
  lemma {:induction false} Reindexed(segs: seq<Segment>, r: seq<Segment>, segmentDuration: real)
    requires |r| == |segs|
    requires forall i :: 0 <= i < |r| ==> r[i] == segs[i].(index := i + 1)
    requires forall i :: 0 <= i < |segs| ==> Counted(segs[i], segmentDuration)
    ensures SegmentWords(r) == SegmentWords(segs)
    ensures Indexed(r, segmentDuration)
  {
    SameTextsSameWords(r, segs);
    forall i | 0 <= i < |r|
      ensures Counted(r[i], segmentDuration) && r[i].index == i + 1
    {
      assert Counted(segs[i], segmentDuration);
    }
  }

  /** Segment `left` absorbing `right`: texts joined by one space, word counts summed. */
  function Merged(left: Segment, right: Segment): (m: Segment)
    ensures Words(m.text) == Words(left.text) + Words(right.text)
    ensures m.words == left.words + right.words && m.index == left.index
  {
    WordsAcrossSpace(left.text, right.text);
    left.(text := left.text + " " + right.text, words := left.words + right.words)
  }

  /** Replacing the pair at m by its merge keeps the words and leaves every segment counted. */
  lemma {:induction false} MergeKeepsSegments(segs: seq<Segment>, m: nat, segmentDuration: real, next: seq<Segment>)
    requires m + 1 < |segs|
    requires Indexed(segs, segmentDuration)
    requires next == segs[..m] + [Merged(segs[m], segs[m + 1])] + segs[m + 2..]
    ensures |next| == |segs| - 1
    ensures forall i :: 0 <= i < m ==> next[i] == segs[i]
    ensures next[m] == Merged(segs[m], segs[m + 1])
    ensures forall i :: m < i < |next| ==> next[i] == segs[i + 1]
    ensures forall i :: 0 <= i < |next| ==> Counted(next[i], segmentDuration)
    ensures SegmentWords(next) == SegmentWords(segs)
  {
    var left, right := segs[m], segs[m + 1];
    var merged := Merged(left, right);
    SplicePositions(segs, m, 2, [merged], next);
    WordsAcrossSpace(left.text, right.text);
    SegmentWordsOfTwo(left, right);
    SegmentWordsOfOne(merged);
    assert segs[m..m + 2] == [left, right];
    SpliceWords(segs, m, 2, [merged], next);
    assert Counted(left, segmentDuration) && Counted(right, segmentDuration);
    SpliceCounted(segs, m, 2, [merged], next, segmentDuration);
  }

  /**
   * One merge (lines 110-116): segment m absorbs segment m + 1 (texts joined by
   * one space, word counts summed), the vacated slot is removed and the list re-indexed.
   */
  method MergePair(segs: seq<Segment>, m: nat, segmentDuration: real) returns (r: seq<Segment>)
    requires m + 1 < |segs|
    requires Indexed(segs, segmentDuration)
    ensures |r| == |segs| - 1
    ensures Indexed(r, segmentDuration)
    ensures SegmentWords(r) == SegmentWords(segs)
    ensures r[m].text == segs[m].text + " " + segs[m + 1].text
    ensures r[m].words == segs[m].words + segs[m + 1].words
    ensures forall i :: 0 <= i < m ==> r[i] == segs[i]
    ensures forall i :: m < i < |r| ==> r[i] == segs[i + 1].(index := i + 1)
  {
    var next := segs[..m] + [Merged(segs[m], segs[m + 1])] + segs[m + 2..];
    MergeKeepsSegments(segs, m, segmentDuration, next);
    r := Reindex(next);
    Reindexed(next, r, segmentDuration);
    forall i | 0 <= i < m
      ensures r[i] == segs[i]
    {
      assert segs[i].index == i + 1;
    }
  }

  /** The two recounted segment dictionaries that replace a split segment at position k. */
  function SplitPair(text: string, k: nat, segmentDuration: real): (pair: seq<Segment>)
    ensures |pair| == 2 && pair[0].index == k + 1 && pair[1].index == k + 2
    ensures Words(pair[0].text) + Words(pair[1].text) == Words(text)
  {
    var halves := SplitHalves(text);
    [NewSegment(halves.0, |Words(halves.0)|, segmentDuration, k + 1),
     NewSegment(halves.1, |Words(halves.1)|, segmentDuration, k + 2)]
  }

  /** The two halves are counted dictionaries carrying the words of the text they split. */
  lemma {:induction false} SplitPairCounted(text: string, k: nat, segmentDuration: real, pair: seq<Segment>)
    requires pair == SplitPair(text, k, segmentDuration)
    ensures |pair| == 2 && Counted(pair[0], segmentDuration) && Counted(pair[1], segmentDuration)
    ensures SegmentWords(pair) == Words(text)
  {
    SegmentWordsOfTwo(pair[0], pair[1]);
    assert pair == [pair[0], pair[1]];
  }

  /** Replacing segment k by two counted segments with its words keeps the words and leaves every segment counted. */
  lemma {:induction false} SplitKeepsSegments(segs: seq<Segment>, k: nat, segmentDuration: real, pair: seq<Segment>, next: seq<Segment>)
    requires k < |segs|
    requires Indexed(segs, segmentDuration)
    requires |pair| == 2 && Counted(pair[0], segmentDuration) && Counted(pair[1], segmentDuration)
    requires SegmentWords(pair) == Words(segs[k].text)
    requires next == segs[..k] + pair + segs[k + 1..]
    ensures |next| == |segs| + 1
    ensures forall i :: 0 <= i < k ==> next[i] == segs[i]
    ensures next[k] == pair[0] && next[k + 1] == pair[1]
    ensures forall i :: k + 1 < i < |next| ==> next[i] == segs[i - 1]
    ensures forall i :: 0 <= i < |next| ==> Counted(next[i], segmentDuration)
    ensures SegmentWords(next) == SegmentWords(segs)
  {
    SplicePositions(segs, k, 1, pair, next);
    SegmentWordsOfOne(segs[k]);
    assert segs[k..k + 1] == [segs[k]];
    SpliceWords(segs, k, 1, pair, next);
    assert forall i :: 0 <= i < |pair| ==> Counted(pair[i], segmentDuration);
    SpliceCounted(segs, k, 1, pair, next, segmentDuration);
  }

  /**
   * One split (lines 130-154): segment k is replaced by the two halves of its
   * sentences, each recounted, and the list is re-indexed.
   */
  method SplitAt(segs: seq<Segment>, k: nat, segmentDuration: real) returns (r: seq<Segment>)
    requires k < |segs|
    requires Indexed(segs, segmentDuration)
    ensures |r| == |segs| + 1
    ensures Indexed(r, segmentDuration)
    ensures SegmentWords(r) == SegmentWords(segs)
    ensures r[k].text == SplitHalves(segs[k].text).0 && r[k + 1].text == SplitHalves(segs[k].text).1
    ensures forall i :: 0 <= i < k ==> r[i] == segs[i]
    ensures forall i :: k + 1 < i < |r| ==> r[i] == segs[i - 1].(index := i + 1)
  {
    var pair := SplitPair(segs[k].text, k, segmentDuration);
    var next := segs[..k] + pair + segs[k + 1..];
    SplitPairCounted(segs[k].text, k, segmentDuration, pair);
    SplitKeepsSegments(segs, k, segmentDuration, pair, next);
    r := Reindex(next);
    Reindexed(next, r, segmentDuration);
    forall i | 0 <= i < k
      ensures r[i] == segs[i]
    {
      assert segs[i].index == i + 1;
    }
  }

  // ---------------------------------------------------------------------------
  // Phase 3: timing (lines 157-161)

  /** Segment `seg` placed in slot k (0-based): it starts at k * duration and ends one duration later. */
  function Slot(seg: Segment, k: nat, segmentDuration: real): Segment
  {
    seg.(startTime := Some(k as real * segmentDuration), endTime := Some(k as real * segmentDuration + segmentDuration))
  }

  /** Back-to-back slots: every segment is placed in the slot of its position. */
  method AssignTimes(segs: seq<Segment>, segmentDuration: real) returns (r: seq<Segment>)
    ensures |r| == |segs|
    ensures forall k :: 0 <= k < |r| ==> r[k] == Slot(segs[k], k, segmentDuration)
  {
    var startTime := 0.0;
    r := segs;
    for i := 0 to |r|
      invariant |r| == |segs|
      invariant startTime == i as real * segmentDuration
      invariant forall k :: 0 <= k < i ==> r[k] == Slot(segs[k], k, segmentDuration)
      invariant forall k :: i <= k < |r| ==> r[k] == segs[k]
    {
      r := r[i := r[i].(startTime := Some(startTime), endTime := Some(startTime + segmentDuration))];
      assert r[i] == Slot(segs[i], i, segmentDuration);
      assert (i + 1) as real * segmentDuration == i as real * segmentDuration + segmentDuration;
      startTime := startTime + segmentDuration;
    }
  }

  /**
   * What `segment_script` promises: exactly `numSegments` segments whose words,
   * read in order, are the script's words; each segment's word count matches its
   * text; indices run 1..n; every slot lasts `segmentDuration` and follows the
   * previous one without gap.
   */
  predicate Segmentation(segs: seq<Segment>, script: string, numSegments: int, segmentDuration: real)
  {
    && |segs| == numSegments
    && SegmentWords(segs) == Words(script)
    && forall k :: 0 <= k < |segs| ==>
      && segs[k].words == |Words(segs[k].text)|
      && segs[k].duration == segmentDuration
      && segs[k].index == k + 1
      && segs[k].startTime == Some(k as real * segmentDuration)
      && segs[k].endTime == Some(k as real * segmentDuration + segmentDuration)
      && segs[k].warning.None? && segs[k].suggestedEdit.None? && segs[k].timingStatus.None?
  }

  /** Timing an indexed, word-preserving segment list yields a segmentation of the script. */
  lemma {:induction false} TimedSegmentation(segs: seq<Segment>, timed: seq<Segment>, script: string, segmentDuration: real)
    requires Indexed(segs, segmentDuration) && SegmentWords(segs) == Words(script)
    requires |timed| == |segs|
    requires forall k :: 0 <= k < |timed| ==> timed[k] == Slot(segs[k], k, segmentDuration)
    ensures Segmentation(timed, script, |segs|, segmentDuration)
  {
    SameTextsSameWords(timed, segs);
    forall k | 0 <= k < |timed|
      ensures timed[k].words == |Words(timed[k].text)| && timed[k].index == k + 1
    {
      assert Counted(segs[k], segmentDuration);
    }
  }

  /**
   * `segment_script(script, num_segments, segment_duration, wpm)`, with the
   * configured buffer fraction passed in. It fails with IndexError exactly when
   * `num_segments < 1`: merging then runs down to one segment and indexes a
   * pair that does not exist.
   */
  method SegmentScript(script: string, numSegments: int, segmentDuration: real, wpm: real, buffer: real)
    returns (result: Result<seq<Segment>, Error>)
    ensures result.Failure? <==> numSegments < 1
    ensures result.Failure? ==> result.error == IndexError
    ensures result.Success? ==> Segmentation(result.value, script, numSegments, segmentDuration)
  {
    var budget := WordBudget(segmentDuration, wpm, buffer);
    var sentences := SplitSentences(Strip(script));
    var segs := PackSentences(sentences, budget, segmentDuration);
    PackedScript(script, sentences, budget, segmentDuration, segs);

    // Too many segments: merge the lightest adjacent pair.
    while |segs| > numSegments
      invariant |segs| >= 1
      invariant Indexed(segs, segmentDuration)
      invariant SegmentWords(segs) == Words(script)
      decreases |segs|
    {
      var m := FindMergeIndex(segs);
      if m + 1 >= |segs| {
        return Failure(IndexError);
      }
      segs := MergePair(segs, m, segmentDuration);
    }

    // Too few segments: split the heaviest segment at its middle sentence.
    while |segs| < numSegments
      invariant 1 <= |segs| <= numSegments
      invariant Indexed(segs, segmentDuration)
      invariant SegmentWords(segs) == Words(script)
      decreases numSegments - |segs|
    {
      var k := FindSplitIndex(segs);
      segs := SplitAt(segs, k, segmentDuration);
    }

    var timed := AssignTimes(segs, segmentDuration);
    TimedSegmentation(segs, timed, script, segmentDuration);
    return Success(timed);
  }

  // ---------------------------------------------------------------------------
  // Validation (lines 166-185)

  datatype Verdict = Shorten | Expand | Good

  /** The class of a segment by its speaking time `words / wpm * 60`. */
  function Classify(words: nat, duration: real, wpm: real, buffer: real): (v: Verdict)
    requires wpm != 0.0
    ensures wpm > 0.0 && duration > 0.0 && buffer < 0.7 ==> v != Good
    ensures wpm > 0.0 && words == 0 && duration * buffer >= 0.0 ==> v != Shorten
  {
    var timeNeeded := words as real / wpm * 60.0;
    if timeNeeded > duration * buffer then Shorten
    else if timeNeeded < duration * 0.7 then Expand
    else NarrowWindow(timeNeeded, duration, buffer); Good
  }

  /** A buffer below 0.7 leaves no speaking time that is both within the buffer and at least 0.7 of a positive duration. */
  lemma {:induction false} NarrowWindow(timeNeeded: real, duration: real, buffer: real)
    requires duration * 0.7 <= timeNeeded <= duration * buffer
    ensures duration > 0.0 ==> buffer >= 0.7
  {
    if duration > 0.0 {
      assert duration * (buffer - 0.7) == duration * buffer - duration * 0.7;
    }
  }

  /**
   * For a positive rate the classes are thresholds on `words * 60`: over
   * `duration * buffer * wpm` is too long, under `duration * 0.7 * wpm` too short.
   */
  lemma {:induction false} ClassifyByWordRate(words: nat, duration: real, wpm: real, buffer: real)
    requires wpm > 0.0
    ensures Classify(words, duration, wpm, buffer) == Shorten <==> words as real * 60.0 > duration * buffer * wpm
    ensures Classify(words, duration, wpm, buffer) == Expand <==>
      words as real * 60.0 <= duration * buffer * wpm && words as real * 60.0 < duration * 0.7 * wpm
    ensures Classify(words, duration, wpm, buffer) == Good <==>
      duration * 0.7 * wpm <= words as real * 60.0 <= duration * buffer * wpm
  {
    var timeNeeded := words as real / wpm * 60.0;
    assert timeNeeded * wpm == words as real * 60.0;
    assert timeNeeded > duration * buffer <==> timeNeeded * wpm > duration * buffer * wpm;
    assert timeNeeded < duration * 0.7 <==> timeNeeded * wpm < duration * 0.7 * wpm;
  }

  /** The annotation `validate_script_timing` writes into one segment. */
  function Annotate(seg: Segment, wpm: real, buffer: real): (r: Segment)
    requires wpm != 0.0
    ensures r.text == seg.text && r.words == seg.words && r.duration == seg.duration && r.index == seg.index
    ensures r.startTime == seg.startTime && r.endTime == seg.endTime
  {
    match Classify(seg.words, seg.duration, wpm, buffer)
    case Shorten => seg.(warning := Some(TooManyWords(seg.words, seg.duration)), suggestedEdit := Some("shorten"))
    case Expand => seg.(warning := Some(TooFewWords(seg.words, seg.duration)), suggestedEdit := Some("expand"))
    case Good => seg.(timingStatus := Some("good"))
  }

  /** Annotating twice sets the same keys to the same values: validation is not cumulative. */
  lemma {:induction false} AnnotateIdempotent(seg: Segment, wpm: real, buffer: real)
    requires wpm != 0.0
    ensures Annotate(Annotate(seg, wpm, buffer), wpm, buffer) == Annotate(seg, wpm, buffer)
  {
  }

  /** With 150 wpm, 5 s segments and a 0.9 buffer the budget is 11 words, 11 words are fine and 14 too many. */
  lemma {:induction false} TimingScenarios()
    ensures WordBudget(5.0, 150.0, 0.9) == 11
    ensures Classify(11, 5.0, 150.0, 0.9) == Good
    ensures Classify(14, 5.0, 150.0, 0.9) == Shorten
    ensures Classify(7, 5.0, 150.0, 0.9) == Expand
  {
    assert 5.0 / 60.0 * 150.0 * 0.9 == 11.25;
  }

  /**
   * `validate_script_timing(segments, wpm)`, with the configured buffer passed
   * in: annotates every segment in place. A zero rate raises ZeroDivisionError
   * at the first segment, before anything is written.
   */
  method ValidateScriptTiming(segs: array<Segment>, wpm: real, buffer: real) returns (ok: bool)
    modifies segs
    ensures ok <==> wpm != 0.0 || segs.Length == 0
    ensures !ok ==> segs[..] == old(segs[..])
    ensures ok && wpm != 0.0 ==> forall i :: 0 <= i < segs.Length ==> segs[i] == Annotate(old(segs[i]), wpm, buffer)
  {
    for i := 0 to segs.Length
      invariant wpm == 0.0 ==> i == 0
      invariant forall j :: 0 <= j < i ==> wpm != 0.0 && segs[j] == Annotate(old(segs[j]), wpm, buffer)
      invariant forall j :: i <= j < segs.Length ==> segs[j] == old(segs[j])
    {
      if wpm == 0.0 {
        return false;
      }
      segs[i] := Annotate(segs[i], wpm, buffer);
    }
    return true;
  }
}
