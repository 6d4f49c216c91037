/**
 * `SegmentVisualizer` (core/chains/segment_visualizer.py): `optimize_visual_transitions`,
 * which annotates a list of segment dictionaries in place with transition hints
 * and opening and closing directions on their visual prompts.
 */
module SegmentVisualizer {
  import opened Wrappers
  import opened YamlTree

  /** The exceptions `seg['visual_prompt'] += ...` can raise on a dictionary of these values. */
  datatype VisualError = KeyError | TypeError

  /** A segment dictionary. */
  type Segment = map<string, Value>

  const SmoothCut: Value := Str("smooth cut")
  const Establishing := " Start with an establishing shot."
  const Concluding := " End with a concluding visual that summarizes the concept."

  /** Lines 114-120: the transition keys set on segment `i` of `n`. */
  function WithTransitions(seg: Segment, i: nat, n: nat): (out: Segment)
    ensures i > 0 ==> "transition_in" in out && out["transition_in"] == SmoothCut
    ensures i == 0 ==> SameAt(out, seg, "transition_in")
    ensures i + 1 < n ==> "transition_out" in out && out["transition_out"] == SmoothCut
    ensures i + 1 >= n ==> SameAt(out, seg, "transition_out")
    ensures forall key :: key != "transition_in" && key != "transition_out" ==> SameAt(out, seg, key)
  {
    var withIn := if i > 0 then seg["transition_in" := SmoothCut] else seg;
    if i + 1 < n then withIn["transition_out" := SmoothCut] else withIn
  }

  /** Lines 123-126: the suffix for segment `i` of `n`; the `elif` gives a lone segment only the opening one. */
  function SuffixAt(i: nat, n: nat): Option<string>
  {
    if i == 0 then Some(Establishing)
    else if i + 1 == n then Some(Concluding)
    else None
  }

  /** `seg['visual_prompt'] += suffix`: a missing key and a non-string prompt raise. */
  function AppendPrompt(seg: Segment, suffix: string): (r: Result<Segment, VisualError>)
    ensures r.Success? <==> HasTextPrompt(seg)
    ensures r.Failure? ==> (r.error == KeyError <==> "visual_prompt" !in seg)
    ensures r.Success? ==> "visual_prompt" in r.value && r.value["visual_prompt"] == Str(seg["visual_prompt"].s + suffix)
    ensures r.Success? ==> forall key :: key != "visual_prompt" ==> SameAt(r.value, seg, key)
  {
    if "visual_prompt" !in seg then Failure(KeyError)
    else match seg["visual_prompt"]
      case Str(p) => Success(seg["visual_prompt" := Str(p + suffix)])
      case _ => Failure(TypeError)
  }

  predicate HasTextPrompt(seg: Segment)
  {
    "visual_prompt" in seg && seg["visual_prompt"].Str?
  }

  /** Whether `out` holds the same value as `seg` under `key`, or lacks it as `seg` does. */
  predicate SameAt(out: Segment, seg: Segment, key: string)
  {
    (key in out <==> key in seg) && (key in seg ==> out[key] == seg[key])
  }

  /** One iteration of the loop, on segment `i` of `n`. */
  function Annotate(seg: Segment, i: nat, n: nat): (r: Result<Segment, VisualError>)
    requires i < n
    ensures r.Success? <==> (0 < i && i + 1 < n) || HasTextPrompt(seg)
    ensures r.Failure? ==> (r.error == KeyError <==> "visual_prompt" !in seg)
    ensures r.Success? ==>
      var out := r.value;
      && (i > 0 ==> "transition_in" in out && out["transition_in"] == SmoothCut)
      && (i == 0 ==> SameAt(out, seg, "transition_in"))
      && (i + 1 < n ==> "transition_out" in out && out["transition_out"] == SmoothCut)
      && (i + 1 == n ==> SameAt(out, seg, "transition_out"))
      && (i == 0 ==> "visual_prompt" in out && out["visual_prompt"] == Str(seg["visual_prompt"].s + Establishing))
      && (0 < i && i + 1 == n ==> "visual_prompt" in out && out["visual_prompt"] == Str(seg["visual_prompt"].s + Concluding))
      && (0 < i && i + 1 < n ==> SameAt(out, seg, "visual_prompt"))
      && (forall key :: key !in {"transition_in", "transition_out", "visual_prompt"} ==> SameAt(out, seg, key))
  {
    var t := WithTransitions(seg, i, n);
    match SuffixAt(i, n)
    case None => Success(t)
    case Some(x) => AppendPrompt(t, x)
  }

  /** The loop stopped at segment `k` with error `e`: the segments before it are annotated, it has its transitions only, the rest are untouched. */
  ghost predicate StoppedAt(before: seq<Segment>, after: seq<Segment>, k: nat, e: VisualError)
    requires |before| == |after|
  {
    var n := |before|;
    && k < n
    && (forall j :: 0 <= j < k ==> Annotate(before[j], j, n).Success? && after[j] == Annotate(before[j], j, n).value)
    && Annotate(before[k], k, n) == Failure(e)
    && after[k] == WithTransitions(before[k], k, n)
    && after[k + 1..] == before[k + 1..]
  }

  /**
   * `optimize_visual_transitions(visual_segments)`: annotates every segment in
   * place and returns the same list, or raises at the first or last segment,
   * leaving the work done so far in place.
   */
  method OptimizeVisualTransitions(a: array<Segment>) returns (r: Result<array<Segment>, VisualError>)
    modifies a
    ensures r.Success? ==> r.value == a
    ensures r.Success? <==> forall i :: 0 <= i < a.Length ==> Annotate(old(a[i]), i, a.Length).Success?
    ensures r.Success? ==> forall i :: 0 <= i < a.Length ==> a[i] == Annotate(old(a[i]), i, a.Length).value
    ensures r.Failure? ==> exists k :: StoppedAt(old(a[..]), a[..], k, r.error)
  {
    var n := a.Length;
    for i := 0 to n
      invariant forall j :: 0 <= j < i ==> Annotate(old(a[j]), j, n).Success? && a[j] == Annotate(old(a[j]), j, n).value
      invariant forall j :: i <= j < n ==> a[j] == old(a[j])
    {
      if i > 0 {
        a[i] := a[i]["transition_in" := SmoothCut];
      }
      if i < n - 1 {
        a[i] := a[i]["transition_out" := SmoothCut];
      }
      if i == 0 || i == n - 1 {
        var suffix := if i == 0 then Establishing else Concluding;
        var appended := AppendPrompt(a[i], suffix);
        if appended.Failure? {
          assert a[i + 1..] == old(a[..])[i + 1..];
          assert StoppedAt(old(a[..]), a[..], i, appended.error);
          return Failure(appended.error);
        }
        a[i] := appended.value;
      }
    }
    return Success(a);
  }
}
