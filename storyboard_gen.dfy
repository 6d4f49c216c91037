/** `StoryboardGen` (core/chains/storyboard_gen.py): one visual description per script line. */
module StoryboardGen {
  import opened PyStrings

  const Prefix: string := "Visual: "

  /** `[f"Visual: {line}" for line in script]`. */
  function GenerateStoryboard(script: seq<string>): (board: seq<string>)
    ensures |board| == |script|
    ensures forall i :: 0 <= i < |script| ==> StartsWith(board[i], Prefix)
  {
    seq(|script|, i requires 0 <= i < |script| => Prefix + script[i])
  }

  /** The script lines a storyboard describes: each entry without its `Visual: ` prefix. */
  function ScriptOf(board: seq<string>): (script: seq<string>)
    requires forall i :: 0 <= i < |board| ==> StartsWith(board[i], Prefix)
    ensures |script| == |board|
  {
    seq(|board|, i requires 0 <= i < |board| && StartsWith(board[i], Prefix) => board[i][|Prefix|..])
  }

  /** Every script line is recovered from its storyboard entry, in order. */
  lemma {:induction false} ScriptOfStoryboard(script: seq<string>)
    ensures ScriptOf(GenerateStoryboard(script)) == script
  {
    var board := GenerateStoryboard(script);
    forall i | 0 <= i < |script|
      ensures ScriptOf(board)[i] == script[i]
    {
      assert board[i] == Prefix + script[i];
      assert (Prefix + script[i])[|Prefix|..] == script[i];
    }
  }

  /** The storyboard of two scripts one after the other is their storyboards one after the other. */
  lemma {:induction false} StoryboardOfAppend(a: seq<string>, b: seq<string>)
    ensures GenerateStoryboard(a + b) == GenerateStoryboard(a) + GenerateStoryboard(b)
  {
    var whole := GenerateStoryboard(a + b);
    var parts := GenerateStoryboard(a) + GenerateStoryboard(b);
    forall i | 0 <= i < |a + b|
      ensures whole[i] == parts[i]
    {
      if i < |a| {
        assert (a + b)[i] == a[i];
      } else {
        assert (a + b)[i] == b[i - |a|];
      }
    }
  }
}
