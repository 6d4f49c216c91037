/**
 * `PromptCleaner` (core/utils/prompt_cleaner.py): `clean_prompt`, which tidies
 * whitespace and punctuation and deletes a fixed list of filler phrases, and
 * `optimize_for_video`, which adds a shot direction to prompts without one.
 */
module PromptCleaner {
  import opened PyStrings

  /** Lines 16-33, deleted in this order. */
  const Phrases: seq<string> := [
    "high quality", "professional", "cinematic", "award winning", "stunning", "beautiful",
    "amazing", "incredible", "perfect", "best", "top quality", "premium", "4k", "8k",
    "ultra hd", "high resolution"
  ]

  const MediumShot := ", medium shot."

  /** The character classes the substitutions collapse: `\s`, `[.!?]` and `[,;]`. */
  datatype Run = Spaces | SentenceMarks | ClauseMarks

  predicate InRun(k: Run, c: char)
  {
    match k
    case Spaces => IsSpace(c)
    case SentenceMarks => c == '.' || c == '!' || c == '?'
    case ClauseMarks => c == ',' || c == ';'
  }

  /** What each maximal run of the class becomes. */
  function Replacement(k: Run): (c: char)
    ensures InRun(k, c)
  {
    match k
    case Spaces => ' '
    case SentenceMarks => '.'
    case ClauseMarks => ','
  }

  /** Drops the run of class characters `s` starts with. */
  function SkipRun(s: string, k: Run): (r: string)
    ensures |r| <= |s| && r == s[|s| - |r|..]
    ensures r == [] || !InRun(k, r[0])
  {
    if s != [] && InRun(k, s[0]) then SkipRun(s[1..], k) else s
  }

  /** `re.sub(pattern + '+', replacement, s)`: every maximal run of the class becomes one replacement character. */
  function Collapse(s: string, k: Run): (r: string)
    ensures r == [] <==> s == []
    ensures r != [] ==> r[0] == if InRun(k, s[0]) then Replacement(k) else s[0]
    decreases |s|
  {
    if s == [] then []
    else if InRun(k, s[0]) then [Replacement(k)] + Collapse(SkipRun(s[1..], k), k)
    else [s[0]] + Collapse(s[1..], k)
  }

  /** No two neighbouring characters of `s` are both `c`. */
  predicate NoDouble(s: string, c: char)
  {
    forall i :: 0 <= i < |s| - 1 ==> !(s[i] == c && s[i + 1] == c)
  }

  /** No two neighbouring characters of `s` are both in the class. */
  predicate NoAdjacentRun(s: string, k: Run)
  {
    forall i :: 0 <= i < |s| - 1 ==> !(InRun(k, s[i]) && InRun(k, s[i + 1]))
  }

  /** Every class character of `s` is the class's replacement. */
  predicate OnlyReplacement(s: string, k: Run)
  {
    forall i :: 0 <= i < |s| ==> InRun(k, s[i]) ==> s[i] == Replacement(k)
  }

  lemma {:induction false} NoDoubleCons(x: char, t: string, c: char)
    requires NoDouble(t, c) && (t == [] || x != c || t[0] != c)
    ensures NoDouble([x] + t, c)
  {
    var s := [x] + t;
    forall i | 1 <= i < |s| - 1 ensures !(s[i] == c && s[i + 1] == c) {
      assert s[i] == t[i - 1] && s[i + 1] == t[i];
    }
  }

  lemma {:induction false} NoDoubleSuffix(s: string, j: nat, c: char)
    requires j <= |s| && NoDouble(s, c)
    ensures NoDouble(s[j..], c)
  {
    var t := s[j..];
    forall i | 0 <= i < |t| - 1 ensures !(t[i] == c && t[i + 1] == c) {
      assert t[i] == s[j + i] && t[i + 1] == s[j + i + 1];
    }
  }

  lemma {:induction false} NoAdjacentRunCons(x: char, t: string, k: Run)
    requires NoAdjacentRun(t, k) && (t == [] || !InRun(k, x) || !InRun(k, t[0]))
    ensures NoAdjacentRun([x] + t, k)
  {
    var s := [x] + t;
    forall i | 1 <= i < |s| - 1 ensures !(InRun(k, s[i]) && InRun(k, s[i + 1])) {
      assert s[i] == t[i - 1] && s[i + 1] == t[i];
    }
  }

  lemma {:induction false} OnlyReplacementCons(x: char, t: string, k: Run)
    requires OnlyReplacement(t, k) && (InRun(k, x) ==> x == Replacement(k))
    ensures OnlyReplacement([x] + t, k)
  {
    var s := [x] + t;
    forall i | 1 <= i < |s| ensures InRun(k, s[i]) ==> s[i] == Replacement(k) {
      assert s[i] == t[i - 1];
    }
  }

  /** `Collapse` on a non-empty text: its first character or the replacement, then the rest collapsed. */
  lemma {:induction false} CollapseStep(s: string, k: Run)
    requires s != []
    ensures var tail := if InRun(k, s[0]) then SkipRun(s[1..], k) else s[1..];
      && tail == s[|s| - |tail|..]
      && |tail| < |s|
      && (InRun(k, s[0]) ==> tail == [] || !InRun(k, tail[0]))
      && Collapse(s, k) == [if InRun(k, s[0]) then Replacement(k) else s[0]] + Collapse(tail, k)
  {
  }

  /** After collapsing, the class occurs only as its replacement. */
  lemma {:induction false} CollapseOnlyReplacement(s: string, k: Run)
    ensures OnlyReplacement(Collapse(s, k), k)
    decreases |s|
  {
    if s != [] {
      CollapseStep(s, k);
      var tail := if InRun(k, s[0]) then SkipRun(s[1..], k) else s[1..];
      CollapseOnlyReplacement(tail, k);
      OnlyReplacementCons(if InRun(k, s[0]) then Replacement(k) else s[0], Collapse(tail, k), k);
    }
  }

  /** After collapsing, no two class characters are neighbours. */
  lemma {:induction false} CollapseNoAdjacentRun(s: string, k: Run)
    ensures NoAdjacentRun(Collapse(s, k), k)
    decreases |s|
  {
    if s != [] {
      CollapseStep(s, k);
      var tail := if InRun(k, s[0]) then SkipRun(s[1..], k) else s[1..];
      CollapseNoAdjacentRun(tail, k);
      NoAdjacentRunCons(if InRun(k, s[0]) then Replacement(k) else s[0], Collapse(tail, k), k);
    }
  }

  /** Collapsing another class brings in no character. */
  lemma {:induction false} CollapseKeepsAbsent(s: string, k: Run, c: char)
    requires !InRun(k, c) && c !in s
    ensures c !in Collapse(s, k)
    decreases |s|
  {
    if s != [] {
      CollapseStep(s, k);
      var tail := if InRun(k, s[0]) then SkipRun(s[1..], k) else s[1..];
      assert c !in tail by {
        var j := |s| - |tail|;
        assert forall i :: 0 <= i < |tail| ==> tail[i] == s[j + i];
      }
      CollapseKeepsAbsent(tail, k, c);
    }
  }

  /** Collapsing another class puts no two of a character side by side. */
  lemma {:induction false} CollapseKeepsNoDouble(s: string, k: Run, c: char)
    requires !InRun(k, c) && NoDouble(s, c)
    ensures NoDouble(Collapse(s, k), c)
    decreases |s|
  {
    if s != [] {
      CollapseStep(s, k);
      var tail := if InRun(k, s[0]) then SkipRun(s[1..], k) else s[1..];
      NoDoubleSuffix(s, |s| - |tail|, c);
      CollapseKeepsNoDouble(tail, k, c);
      var head := if InRun(k, s[0]) then Replacement(k) else s[0];
      var rest := Collapse(tail, k);
      assert rest == [] || head != c || rest[0] != c by {
        if rest != [] && head == c {
          assert !InRun(k, s[0]) && tail == s[1..];
          assert rest[0] == if InRun(k, tail[0]) then Replacement(k) else tail[0];
          assert !(s[0] == c && s[1] == c);
        }
      }
      NoDoubleCons(head, rest, c);
    }
  }

  /** The characters of `s` outside the class, in order. */
  function Outside(s: string, k: Run): string
  {
    if s == [] then [] else (if InRun(k, s[0]) then [] else [s[0]]) + Outside(s[1..], k)
  }

  lemma {:induction false} OutsideSkipRun(s: string, k: Run)
    ensures Outside(SkipRun(s, k), k) == Outside(s, k)
    decreases |s|
  {
    if s != [] && InRun(k, s[0]) {
      OutsideSkipRun(s[1..], k);
    }
  }

  /** Collapsing keeps every character outside the class, in order. */
  lemma {:induction false} CollapseKeepsOutside(s: string, k: Run)
    ensures Outside(Collapse(s, k), k) == Outside(s, k)
    decreases |s|
  {
    if s != [] {
      CollapseStep(s, k);
      var tail := if InRun(k, s[0]) then SkipRun(s[1..], k) else s[1..];
      var head := if InRun(k, s[0]) then Replacement(k) else s[0];
      CollapseKeepsOutside(tail, k);
      assert ([head] + Collapse(tail, k))[1..] == Collapse(tail, k);
      if InRun(k, s[0]) {
        OutsideSkipRun(s[1..], k);
      }
    }
  }

  /** Text without class characters passes through unchanged, whatever follows it. */
  lemma {:induction false} CollapsePrefixOutside(w: string, x: string, k: Run)
    requires forall i :: 0 <= i < |w| ==> !InRun(k, w[i])
    ensures Collapse(w + x, k) == w + Collapse(x, k)
    decreases |w|
  {
    if w == [] {
      assert w + x == x;
    } else {
      var v := w + x;
      assert v[0] == w[0] && v[1..] == w[1..] + x;
      CollapseStep(v, k);
      CollapsePrefixOutside(w[1..], x, k);
      assert w == [w[0]] + w[1..];
    }
  }

  lemma {:induction false} SkipRunOver(w: string, x: string, k: Run)
    requires forall i :: 0 <= i < |w| ==> InRun(k, w[i])
    requires x == [] || !InRun(k, x[0])
    ensures SkipRun(w + x, k) == x
    decreases |w|
  {
    if w == [] {
      assert w + x == x;
    } else {
      var v := w + x;
      assert v[0] == w[0] && v[1..] == w[1..] + x;
      SkipRunHead(v, k);
      SkipRunOver(w[1..], x, k);
    }
  }

  lemma {:induction false} SkipRunHead(v: string, k: Run)
    requires v != [] && InRun(k, v[0])
    ensures SkipRun(v, k) == SkipRun(v[1..], k)
  {
  }

  /** A maximal run of class characters becomes exactly one replacement character. */
  lemma {:induction false} CollapseOfRun(w: string, x: string, k: Run)
    requires w != [] && forall i :: 0 <= i < |w| ==> InRun(k, w[i])
    requires x == [] || !InRun(k, x[0])
    ensures Collapse(w + x, k) == [Replacement(k)] + Collapse(x, k)
  {
    assert (w + x)[0] == w[0] && (w + x)[1..] == w[1..] + x;
    SkipRunOver(w[1..], x, k);
  }

  /** Collapsing twice is collapsing once. */
  lemma {:induction false} CollapseIdempotent(s: string, k: Run)
    ensures Collapse(Collapse(s, k), k) == Collapse(s, k)
    decreases |s|
  {
    if s != [] {
      CollapseStep(s, k);
      var tail := if InRun(k, s[0]) then SkipRun(s[1..], k) else s[1..];
      var head := if InRun(k, s[0]) then Replacement(k) else s[0];
      var c := Collapse(tail, k);
      CollapseIdempotent(tail, k);
      CollapseStep([head] + c, k);
      assert ([head] + c)[1..] == c;
      if InRun(k, s[0]) {
        assert SkipRun(c, k) == c;
      }
    }
  }

  /** A lower-case phrase matches `s` at its start, ignoring ASCII case. */
  predicate MatchesAt(s: string, p: string)
  {
    |p| <= |s| && forall j :: 0 <= j < |p| ==> LowerChar(s[j]) == p[j]
  }

  /** `re.sub(re.escape(p), '', s, flags=re.IGNORECASE)`: deletes the matches found scanning left to right, without overlap. */
  function DeletePhrase(s: string, p: string): (r: string)
    requires p != []
    ensures |r| <= |s|
    decreases |s|
  {
    if s == [] then []
    else if MatchesAt(s, p) then DeletePhrase(s[|p|..], p)
    else [s[0]] + DeletePhrase(s[1..], p)
  }

  /** A text in which the phrase matches nowhere comes back unchanged. */
  lemma {:induction false} DeleteAbsentPhrase(s: string, p: string)
    requires p != []
    requires forall i :: 0 <= i < |s| ==> !MatchesAt(s[i..], p)
    ensures DeletePhrase(s, p) == s
    decreases |s|
  {
    if s != [] {
      assert !MatchesAt(s[0..], p);
      assert s[0..] == s;
      forall i | 0 <= i < |s| - 1 ensures !MatchesAt(s[1..][i..], p) {
        assert s[1..][i..] == s[i + 1..];
      }
      DeleteAbsentPhrase(s[1..], p);
    }
  }

  /** Every character of the result comes from the text. */
  lemma {:induction false} DeletePhraseOnlyDeletes(s: string, p: string, c: char)
    requires p != []
    ensures c in DeletePhrase(s, p) ==> c in s
    decreases |s|
  {
    if s != [] {
      var tail := if MatchesAt(s, p) then s[|p|..] else s[1..];
      DeletePhraseOnlyDeletes(tail, p, c);
      if c in DeletePhrase(tail, p) {
        var j :| 0 <= j < |tail| && tail[j] == c;
        assert s[|s| - |tail| + j] == c;
      }
    }
  }

  /**
   * The first match is deleted and the text around it is kept: with no match
   * starting inside `a`, a match `m` right after it disappears and scanning
   * resumes after it.
   */
  lemma {:induction false} DeleteFirstMatch(a: string, m: string, b: string, p: string)
    requires p != [] && |m| == |p| && MatchesAt(m, p)
    requires forall i :: 0 <= i < |a| ==> !MatchesAt((a + m + b)[i..], p)
    ensures DeletePhrase(a + m + b, p) == a + DeletePhrase(b, p)
    decreases |a|
  {
    var s := a + m + b;
    if a == [] {
      assert s == m + b;
      assert forall j :: 0 <= j < |p| ==> s[j] == m[j];
      assert s[|p|..] == b;
    } else {
      assert s[0..] == s;
      assert s[1..] == a[1..] + m + b;
      forall i | 0 <= i < |a| - 1 ensures !MatchesAt((a[1..] + m + b)[i..], p) {
        assert (a[1..] + m + b)[i..] == s[i + 1..];
      }
      DeleteFirstMatch(a[1..], m, b, p);
    }
  }

  /** The phrases of `ps` deleted one after the other, in list order. */
  function DeletePhrases(s: string, ps: seq<string>): string
    requires forall i :: 0 <= i < |ps| ==> ps[i] != []
  {
    if ps == [] then s else DeletePhrase(DeletePhrases(s, ps[..|ps| - 1]), ps[|ps| - 1])
  }

  /** Lines 45-49. */
  function EndWithPeriod(s: string): string
  {
    Strip(if EndsWith(s, ".") then s else s + ".")
  }

  /** Lines 38-49: punctuation and whitespace runs collapsed, then the final period. */
  function Punctuate(s: string): string
  {
    EndWithPeriod(Collapse(Collapse(Collapse(s, SentenceMarks), ClauseMarks), Spaces))
  }

  /** `clean_prompt(prompt)`: an empty prompt is returned as it is. */
  function CleanedPrompt(prompt: string): (r: string)
    ensures r == [] <==> prompt == []
    ensures r != [] ==> r[|r| - 1] == '.' && !IsSpace(r[0])
  {
    if prompt == [] then prompt
    else
      PhrasesNonEmpty();
      var d := DeletePhrases(Collapse(Strip(prompt), Spaces), Phrases);
      PunctuateEndsInPeriod(d);
      Punctuate(d)
  }

  /**
   * What the substitutions of lines 39-43 leave behind: no `!`, `?` or `;`, no
   * two neighbouring periods or commas, and whitespace only as single spaces.
   */
  predicate Tidy(s: string)
  {
    && '!' !in s && '?' !in s && ';' !in s
    && NoDouble(s, '.') && NoDouble(s, ',')
    && OnlyReplacement(s, Spaces) && NoAdjacentRun(s, Spaces)
  }

  /** Lines 39-43 make any text tidy. */
  lemma {:induction false} PunctuationPassesTidy(s: string)
    ensures Tidy(Collapse(Collapse(Collapse(s, SentenceMarks), ClauseMarks), Spaces))
  {
    var s3 := Collapse(s, SentenceMarks);
    var s4 := Collapse(s3, ClauseMarks);
    var s5 := Collapse(s4, Spaces);
    CollapseOnlyReplacement(s, SentenceMarks);
    CollapseNoAdjacentRun(s, SentenceMarks);
    assert '!' !in s3 && '?' !in s3 && NoDouble(s3, '.');
    CollapseKeepsAbsent(s3, ClauseMarks, '!');
    CollapseKeepsAbsent(s3, ClauseMarks, '?');
    CollapseKeepsNoDouble(s3, ClauseMarks, '.');
    CollapseOnlyReplacement(s3, ClauseMarks);
    CollapseNoAdjacentRun(s3, ClauseMarks);
    assert ';' !in s4 && NoDouble(s4, ',');
    CollapseKeepsAbsent(s4, Spaces, '!');
    CollapseKeepsAbsent(s4, Spaces, '?');
    CollapseKeepsAbsent(s4, Spaces, ';');
    CollapseKeepsNoDouble(s4, Spaces, '.');
    CollapseKeepsNoDouble(s4, Spaces, ',');
    CollapseOnlyReplacement(s4, Spaces);
    CollapseNoAdjacentRun(s4, Spaces);
  }

  /** Appending the missing final period keeps a text tidy. */
  lemma {:induction false} AppendPeriodTidy(s: string)
    requires Tidy(s) && !EndsWith(s, ".")
    ensures Tidy(s + ".")
  {
    var t := s + ".";
    assert s == [] || s[|s| - 1] != '.';
    forall i | 0 <= i < |t| - 1 ensures !(t[i] == '.' && t[i + 1] == '.') {
      if i + 1 < |s| { assert t[i] == s[i] && t[i + 1] == s[i + 1]; }
    }
    assert forall i :: 0 <= i < |s| ==> t[i] == s[i];
  }

  /** A suffix of a tidy text is tidy. */
  lemma {:induction false} TidySuffix(s: string, j: nat)
    requires j <= |s| && Tidy(s)
    ensures Tidy(s[j..])
  {
    var t := s[j..];
    NoDoubleSuffix(s, j, '.');
    NoDoubleSuffix(s, j, ',');
    assert forall i :: 0 <= i < |t| ==> t[i] == s[j + i];
  }

  /** Lines 45-49 end a tidy text with a period and strip it, keeping it tidy. */
  lemma {:induction false} EndWithPeriodTidy(s: string)
    requires Tidy(s)
    ensures var r := EndWithPeriod(s);
      r != [] && r[|r| - 1] == '.' && !IsSpace(r[0]) && Tidy(r)
  {
    var t := if EndsWith(s, ".") then s else s + ".";
    WithPeriodTidy(s, t);
    StripEndingInPeriod(t);
    TidySuffix(t, |t| - |Strip(t)|);
  }

  /** Line 46-47: the text with its final period is tidy and ends with a period. */
  lemma {:induction false} WithPeriodTidy(s: string, t: string)
    requires Tidy(s) && t == if EndsWith(s, ".") then s else s + "."
    ensures Tidy(t) && t != [] && t[|t| - 1] == '.'
  {
    if !EndsWith(s, ".") {
      AppendPeriodTidy(s);
    }
  }

  /** Text ending with a period loses only its leading whitespace to `strip`, and keeps the period. */
  lemma {:induction false} StripEndingInPeriod(t: string)
    requires t != [] && t[|t| - 1] == '.'
    ensures var r := Strip(t);
      r != [] && r[|r| - 1] == '.' && r == t[|t| - |r|..]
  {
    var l := LStrip(t);
    LStripDropsLeadingSpace(t);
    assert l != [];
    assert l[|l| - 1] == '.';
    assert RStrip(l) == l;
  }

  /** Whatever the phrase deletion leaves, lines 38-49 make it a tidy text ending with a period. */
  lemma {:induction false} PunctuateIsTidy(s: string)
    ensures var r := Punctuate(s);
      r != [] && r[|r| - 1] == '.' && !IsSpace(r[0]) && Tidy(r)
  {
    PunctuationPassesTidy(s);
    EndWithPeriodTidy(Collapse(Collapse(Collapse(s, SentenceMarks), ClauseMarks), Spaces));
  }

  /** The punctuated text is not empty, starts with no whitespace and ends with a period. */
  lemma {:induction false} PunctuateEndsInPeriod(s: string)
    ensures var r := Punctuate(s); r != [] && r[|r| - 1] == '.' && !IsSpace(r[0])
  {
    PunctuateIsTidy(s);
  }

  /** The output of `clean_prompt` for a non-empty prompt ends with a period, has no whitespace at either end, and is tidy; the empty prompt comes back empty. */
  lemma {:induction false} CleanedPromptIsTidy(prompt: string)
    ensures var r := CleanedPrompt(prompt);
      && (r == [] <==> prompt == [])
      && (r != [] ==> r[|r| - 1] == '.' && !IsSpace(r[0]) && Tidy(r))
  {
    if prompt != [] {
      PhrasesNonEmpty();
      PunctuateIsTidy(DeletePhrases(Collapse(Strip(prompt), Spaces), Phrases));
    }
  }

  lemma {:induction false} PhrasesNonEmpty()
    ensures forall i :: 0 <= i < |Phrases| ==> Phrases[i] != []
  {
  }

  /** A text in which no phrase of the list matches anywhere comes back from the whole loop unchanged. */
  lemma {:induction false} DeletePhrasesAbsent(s: string, ps: seq<string>)
    requires forall j :: 0 <= j < |ps| ==> ps[j] != []
    requires forall j, i :: 0 <= j < |ps| && 0 <= i < |s| ==> !MatchesAt(s[i..], ps[j])
    ensures DeletePhrases(s, ps) == s
    decreases |ps|
  {
    if ps != [] {
      var n := |ps| - 1;
      assert forall j :: 0 <= j < n ==> ps[..n][j] == ps[j];
      DeletePhrasesAbsent(s, ps[..n]);
      DeleteAbsentPhrase(s, ps[n]);
    }
  }

  /** No phrase of the list matches anywhere in `s`. */
  predicate PhraseFree(s: string)
  {
    forall j, i :: 0 <= j < |Phrases| && 0 <= i < |s| ==> !MatchesAt(s[i..], Phrases[j])
  }

  lemma {:induction false} SkipSpacesIsLStrip(s: string)
    ensures SkipRun(s, Spaces) == LStrip(s)
    decreases |s|
  {
    if s != [] && IsSpace(s[0]) {
      SkipSpacesIsLStrip(s[1..]);
    }
  }

  lemma {:induction false} LStripKeepsLast(s: string)
    requires s != [] && !IsSpace(s[|s| - 1])
    ensures LStrip(s) != [] && LStrip(s)[|LStrip(s)| - 1] == s[|s| - 1]
    decreases |s|
  {
    if IsSpace(s[0]) {
      LStripKeepsLast(s[1..]);
    }
  }

  lemma {:induction false} SpaceBetween(w: string, x: string)
    ensures w + ([' '] + x) == w + " " + x
  {
    assert " " == [' '];
  }

  /** Text without whitespace at either end has its whitespace runs collapsed into the words joined by single spaces. */
  lemma {:induction false} CollapseSpacesIsJoin(t: string)
    requires t == [] || (!IsSpace(t[0]) && !IsSpace(t[|t| - 1]))
    ensures Collapse(t, Spaces) == Join(" ", Words(t))
    decreases |t|
  {
    if t != [] {
      var n := RunLength(t);
      RunLengthIsMaximal(t);
      var w := t[..n];
      var rest := t[n..];
      assert Words(t) == [w] + Words(rest);
      assert t == w + rest;
      CollapsePrefixOutside(w, rest, Spaces);
      if rest == [] {
        assert Words(t) == [w];
      } else {
        var r := LStrip(rest);
        assert rest[|rest| - 1] == t[|t| - 1];
        LStripKeepsLast(rest);
        LStripDropsLeadingSpace(rest);
        SkipSpacesIsLStrip(rest[1..]);
        CollapseSpacesIsJoin(r);
        WordsOfLStrip(rest);
        assert Words(r) != [];
        calc {
          Collapse(t, Spaces);
          w + Collapse(rest, Spaces);
          { assert InRun(Spaces, rest[0]) && LStrip(rest) == LStrip(rest[1..]); }
          w + ([' '] + Collapse(r, Spaces));
          w + ([' '] + Join(" ", Words(r)));
          { SpaceBetween(w, Join(" ", Words(r))); }
          w + " " + Join(" ", Words(r));
          { assert ([w] + Words(r))[1..] == Words(r); }
          Join(" ", [w] + Words(r));
          Join(" ", Words(t));
        }
      }
    }
  }

  /** Text without whitespace at either end is its own `strip`. */
  lemma {:induction false} StripUnchanged(t: string)
    requires t == [] || (!IsSpace(t[0]) && !IsSpace(t[|t| - 1]))
    ensures Strip(t) == t
  {
    var l := LStrip(t);
    assert l == t;
    assert RStrip(l) == l;
  }

  lemma {:induction false} NormalisedKeepsAbsent(prompt: string, c: char)
    requires !IsSpace(c) && c !in prompt
    ensures c !in Collapse(Strip(prompt), Spaces)
  {
    StripKeepsAbsent(prompt, c);
    CollapseKeepsAbsent(Strip(prompt), Spaces, c);
  }

  /**
   * Reference behaviour of `clean_prompt` (lines 7-49): a prompt with no
   * punctuation in which no phrase occurs comes back as its words joined by
   * single spaces, followed by one period.
   */
  lemma {:induction false} CleanedPromptOfPlainText(prompt: string)
    requires prompt != []
    requires '.' !in prompt && '!' !in prompt && '?' !in prompt && ',' !in prompt && ';' !in prompt
    requires PhraseFree(Join(" ", Words(prompt)))
    ensures CleanedPrompt(prompt) == Join(" ", Words(prompt)) + "."
  {
    var c := Collapse(Strip(prompt), Spaces);
    NormalisedIsJoin(prompt);
    NoPhraseDeleted(c);
    NormalisedUnpunctuated(prompt);
    CollapseIdempotent(Strip(prompt), Spaces);
    PunctuatePlain(c);
  }

  /** Stripping and collapsing whitespace runs (lines 13-14) joins the words by single spaces. */
  lemma {:induction false} NormalisedIsJoin(prompt: string)
    ensures Collapse(Strip(prompt), Spaces) == Join(" ", Words(prompt))
  {
    CollapseSpacesIsJoin(Strip(prompt));
    WordsOfStrip(prompt);
  }

  lemma {:induction false} NoPhraseDeleted(c: string)
    requires PhraseFree(c)
    ensures DeletePhrases(c, Phrases) == c
  {
    PhrasesNonEmpty();
    DeletePhrasesAbsent(c, Phrases);
  }

  lemma {:induction false} NormalisedUnpunctuated(prompt: string)
    requires '.' !in prompt && '!' !in prompt && '?' !in prompt && ',' !in prompt && ';' !in prompt
    ensures var c := Collapse(Strip(prompt), Spaces);
      '.' !in c && '!' !in c && '?' !in c && ',' !in c && ';' !in c
  {
    NormalisedKeepsAbsent(prompt, '.');
    NormalisedKeepsAbsent(prompt, '!');
    NormalisedKeepsAbsent(prompt, '?');
    NormalisedKeepsAbsent(prompt, ',');
    NormalisedKeepsAbsent(prompt, ';');
  }

  /** Text already collapsed, with no whitespace in front and no punctuation, only gains its final period. */
  lemma {:induction false} PunctuatePlain(c: string)
    requires c == [] || !IsSpace(c[0])
    requires '.' !in c && '!' !in c && '?' !in c && ',' !in c && ';' !in c
    requires Collapse(c, Spaces) == c
    ensures Punctuate(c) == c + "."
  {
    assert Collapse(Collapse(Collapse(c, SentenceMarks), ClauseMarks), Spaces) == c by {
      assert c + [] == c;
      CollapsePrefixOutside(c, [], SentenceMarks);
      CollapsePrefixOutside(c, [], ClauseMarks);
    }
    var d := c + ".";
    assert EndWithPeriod(c) == d by {
      assert !EndsWith(c, ".") by {
        if c != [] {
          assert c[|c| - 1] in c;
          assert c[|c| - 1..][0] == c[|c| - 1];
        }
      }
      assert d[|d| - 1] == '.' && !IsSpace('.');
      assert c != [] ==> d[0] == c[0];
      StripUnchanged(d);
    }
  }

  /** Line 35-36: the phrase loop. */
  method DeleteEach(s: string, ps: seq<string>) returns (r: string)
    requires forall i :: 0 <= i < |ps| ==> ps[i] != []
    ensures r == DeletePhrases(s, ps)
  {
    r := s;
    for i := 0 to |ps|
      invariant r == DeletePhrases(s, ps[..i])
    {
      assert ps[..i + 1][..i] == ps[..i];
      r := DeletePhrase(r, ps[i]);
    }
    assert ps[..|ps|] == ps;
  }

  /** `clean_prompt`, as the sequence of reassignments the source performs. */
  method CleanPrompt(prompt: string) returns (r: string)
    ensures r == CleanedPrompt(prompt)
  {
    if prompt == [] {
      return prompt;
    }
    var p := Collapse(Strip(prompt), Spaces);
    PhrasesNonEmpty();
    p := DeleteEach(p, Phrases);
    ghost var deleted := p;
    p := Collapse(p, SentenceMarks);
    p := Collapse(p, ClauseMarks);
    p := Collapse(p, Spaces);
    r := EndWithPeriod(p);
    assert r == Punctuate(deleted);
  }

  /** `s.replace(c, t)` for a one-character `c`. */
  function ReplaceChar(s: string, c: char, t: string): (r: string)
    ensures c !in s ==> r == s
    decreases |s|
  {
    if s == [] then [] else (if s[0] == c then t else [s[0]]) + ReplaceChar(s[1..], c, t)
  }

  lemma {:induction false} ReplaceCharAppend(a: string, b: string, c: char, t: string)
    ensures ReplaceChar(a + b, c, t) == ReplaceChar(a, c, t) + ReplaceChar(b, c, t)
    decreases |a|
  {
    if a == [] {
      assert a + b == b;
    } else {
      assert (a + b)[1..] == a[1..] + b;
      ReplaceCharAppend(a[1..], b, c, t);
    }
  }

  /** Replacing `c` by `t` keeps the pieces between the `c`s and rejoins them with `t`. */
  lemma {:induction false} ReplaceCharIsSplitJoin(s: string, c: char, t: string)
    ensures ReplaceChar(s, c, t) == Join(t, SplitOn(s, c))
    decreases |s|
  {
    var i := IndexOf(s, c);
    if i < |s| {
      var before, after := s[..i], s[i + 1..];
      assert s == before + [c] + after;
      ReplaceCharAppend(before + [c], after, c, t);
      ReplaceCharAppend(before, [c], c, t);
      assert ReplaceChar([c], c, t) == t;
      ReplaceCharIsSplitJoin(after, c, t);
      var rest := SplitOn(after, c);
      assert SplitOn(s, c) == [before] + rest;
      assert ([before] + rest)[1..] == rest;
    }
  }

  /** Line 58: the prompt names neither a camera nor a shot, in any case. */
  predicate NoShotTerms(p: string)
  {
    !Contains(Lower(p), "camera") && !Contains(Lower(p), "shot")
  }

  /** `optimize_for_video(prompt)`. */
  function OptimizedForVideo(prompt: string): (r: string)
    ensures r == [] <==> prompt == []
    ensures r != [] ==> r[|r| - 1] == '.'
  {
    var p := CleanedPrompt(prompt);
    ReplacedKeepsPeriod(p);
    if NoShotTerms(p) then ReplaceChar(p, '.', MediumShot) else p
  }

  /** Replacing the periods of a text that is empty or ends in one leaves it empty or ending in one. */
  lemma {:induction false} ReplacedKeepsPeriod(p: string)
    requires p != [] ==> p[|p| - 1] == '.'
    ensures var q := ReplaceChar(p, '.', MediumShot);
      (q == [] <==> p == []) && (q != [] ==> q[|q| - 1] == '.')
  {
    if p != [] {
      PeriodBecomesShot(p);
    }
  }

  /** `optimize_for_video`, as the reassignments the source performs. */
  method OptimizeForVideo(prompt: string) returns (r: string)
    ensures r == OptimizedForVideo(prompt)
  {
    r := CleanPrompt(prompt);
    if !Contains(Lower(r), "camera") && !Contains(Lower(r), "shot") {
      r := ReplaceChar(r, '.', MediumShot);
    }
  }

  /** Without camera or shot terms, the cleaned prompt's sentences are rejoined with the shot direction; otherwise the cleaned prompt is returned. */
  lemma {:induction false} VideoPromptIsCleanedPrompt(prompt: string)
    ensures var p := CleanedPrompt(prompt);
      OptimizedForVideo(prompt) == if NoShotTerms(p) then Join(MediumShot, SplitOn(p, '.')) else p
  {
    ReplaceCharIsSplitJoin(CleanedPrompt(prompt), '.', MediumShot);
  }

  /** A non-empty prompt without camera or shot terms comes out ending with the shot direction. */
  lemma {:induction false} VideoPromptEndsWithShot(prompt: string)
    requires prompt != [] && NoShotTerms(CleanedPrompt(prompt))
    ensures EndsWith(OptimizedForVideo(prompt), MediumShot)
  {
    CleanedPromptIsTidy(prompt);
    PeriodBecomesShot(CleanedPrompt(prompt));
  }

  lemma {:induction false} PeriodBecomesShot(p: string)
    requires p != [] && p[|p| - 1] == '.'
    ensures EndsWith(ReplaceChar(p, '.', MediumShot), MediumShot)
  {
    var front := p[..|p| - 1];
    assert p == front + ['.'];
    ReplaceCharAppend(front, ['.'], '.', MediumShot);
    assert ReplaceChar(['.'], '.', MediumShot) == MediumShot;
  }
}
