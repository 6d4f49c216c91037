/**
 * `TimingChain` (core/chains/timing_chain.py): the legacy per-line timing
 * estimate, about two words per second with a one-second floor.
 */
module TimingChain {
  import opened PyStrings

  /** `{"line": line, "seconds": seconds}`. */
  datatype LineTiming = LineTiming(line: string, seconds: real)

  /** `max(1, len(line.split()) / 2)`: half a second per word, never under one second. */
  function Seconds(line: string): (s: real)
    ensures s >= 1.0
    ensures s == 1.0 <==> |Words(line)| <= 2
    ensures |Words(line)| >= 2 ==> s * 2.0 == |Words(line)| as real
  {
    var half := |Words(line)| as real / 2.0;
    if 1.0 >= half then 1.0 else half
  }

  /** Empty and blank lines get exactly one second. */
  lemma {:induction false} BlankLineOneSecond(line: string)
    requires AllSpace(line)
    ensures Seconds(line) == 1.0
  {
    NoWordsIffAllSpace(line);
  }

  /** `estimate_timing(script)`. */
  method EstimateTiming(script: seq<string>) returns (timings: seq<LineTiming>)
    ensures |timings| == |script|
    ensures forall i :: 0 <= i < |script| ==> timings[i] == LineTiming(script[i], Seconds(script[i]))
  {
    timings := [];
    for n := 0 to |script|
      invariant |timings| == n
      invariant forall i :: 0 <= i < n ==> timings[i] == LineTiming(script[i], Seconds(script[i]))
    {
      var seconds := Seconds(script[n]);
      timings := timings + [LineTiming(script[n], seconds)];
    }
  }
}
