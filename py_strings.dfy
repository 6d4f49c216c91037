/**
 * The Python string builtins the core relies on: `str.split()`, `str.strip()`,
 * `' '.join`, `str.split(sep)`, `str.partition`, `str.splitlines()`, `str.lower()`,
 * substring containment, and the parts of `int()`/`float()` the parsers use.
 */
module PyStrings {
  import opened Wrappers

  /** Python's `str.isspace()` set, which is also what `\s`, `split()` and `strip()` use. */
  predicate IsSpace(c: char)
  {
    || c == ' ' || ('\t' <= c <= '\r') || ('\U{1C}' <= c <= '\U{1F}')
    || c == '\U{85}' || c == '\U{A0}' || c == '\U{1680}' || ('\U{2000}' <= c <= '\U{200A}')
    || c == '\U{2028}' || c == '\U{2029}' || c == '\U{202F}' || c == '\U{205F}' || c == '\U{3000}'
  }

  predicate AllSpace(s: string)
  {
    forall i :: 0 <= i < |s| ==> IsSpace(s[i])
  }

  predicate NoSpace(s: string)
  {
    forall i :: 0 <= i < |s| ==> !IsSpace(s[i])
  }

  /** `s.lstrip()`: drops the leading whitespace. */
  function LStrip(s: string): (r: string)
    ensures |r| <= |s| && r == s[|s| - |r|..]
  {
    if s != [] && IsSpace(s[0]) then LStrip(s[1..]) else s
  }

  /** What `lstrip` drops is all whitespace, and what it keeps does not start with whitespace. */
  lemma {:induction false} LStripDropsLeadingSpace(s: string)
    ensures var r := LStrip(s);
      && AllSpace(s[..|s| - |r|])
      && (r == [] || !IsSpace(r[0]))
  {
    if s != [] && IsSpace(s[0]) {
      LStripDropsLeadingSpace(s[1..]);
      var r := LStrip(s);
      assert s[..|s| - |r|] == [s[0]] + s[1..][..|s| - 1 - |r|];
    }
  }

  /** `s.rstrip()`: drops the trailing whitespace. */
  function RStrip(s: string): (r: string)
    ensures |r| <= |s| && r == s[..|r|]
  {
    if s != [] && IsSpace(s[|s| - 1]) then RStrip(s[..|s| - 1]) else s
  }

  /** What `rstrip` drops is all whitespace, and what it keeps does not end with whitespace. */
  lemma {:induction false} RStripDropsTrailingSpace(s: string)
    ensures var r := RStrip(s);
      && AllSpace(s[|r|..])
      && (r == [] || !IsSpace(r[|r| - 1]))
  {
    if s != [] && IsSpace(s[|s| - 1]) {
      var n := |s| - 1;
      RStripDropsTrailingSpace(s[..n]);
      var r := RStrip(s);
      assert s[|r|..] == s[..n][|r|..] + [s[n]];
    }
  }

  /** `s.strip()`: a piece of `s` that neither starts nor ends with whitespace. */
  function Strip(s: string): (r: string)
    ensures |r| <= |s|
    ensures r == [] || (!IsSpace(r[0]) && !IsSpace(r[|r| - 1]))
  {
    var l := LStrip(s);
    LStripDropsLeadingSpace(s);
    RStripDropsTrailingSpace(l);
    RStrip(l)
  }

  /** Stripping removes characters only: one absent from `s` is absent from `s.strip()`. */
  lemma {:induction false} StripKeepsAbsent(s: string, c: char)
    requires c !in s
    ensures c !in Strip(s)
  {
    var l := LStrip(s);
    assert l == s[|s| - |l|..];
    assert c !in l;
    assert RStrip(l) == l[..|RStrip(l)|];
  }

  /** Length of the run of non-whitespace characters that `s` starts with. */
  function RunLength(s: string): (n: nat)
    ensures n <= |s|
  {
    if s == [] || IsSpace(s[0]) then 0 else 1 + RunLength(s[1..])
  }

  /** The run holds no whitespace and stops at whitespace or at the end. */
  lemma {:induction false} RunLengthIsMaximal(s: string)
    ensures NoSpace(s[..RunLength(s)])
    ensures RunLength(s) < |s| ==> IsSpace(s[RunLength(s)])
  {
    if s != [] && !IsSpace(s[0]) {
      RunLengthIsMaximal(s[1..]);
      assert s[..RunLength(s)] == [s[0]] + s[1..][..RunLength(s[1..])];
    }
  }

  /** `s.split()` with no separator: the maximal runs of non-whitespace characters, in order. */
  function Words(s: string): (w: seq<string>)
    ensures forall k :: 0 <= k < |w| ==> w[k] != [] && NoSpace(w[k])
    decreases |s|
  {
    if s == [] then []
    else if IsSpace(s[0]) then Words(s[1..])
    else
      var n := RunLength(s);
      RunLengthIsMaximal(s);
      [s[..n]] + Words(s[n..])
  }

  /** `sep.join(xs)`. */
  function Join(sep: string, xs: seq<string>): string
  {
    if |xs| == 0 then ""
    else if |xs| == 1 then xs[0]
    else xs[0] + sep + Join(sep, xs[1..])
  }

  /** The words of every string of `xs`, in order. */
  function WordsOf(xs: seq<string>): seq<string>
  {
    if xs == [] then [] else Words(xs[0]) + WordsOf(xs[1..])
  }

  lemma {:induction false} WordsOfAppend(xs: seq<string>, ys: seq<string>)
    ensures WordsOf(xs + ys) == WordsOf(xs) + WordsOf(ys)
  {
    if xs != [] {
      assert (xs + ys)[0] == xs[0];
      assert (xs + ys)[1..] == xs[1..] + ys;
      WordsOfAppend(xs[1..], ys);
    } else {
      assert xs + ys == ys;
    }
  }

  /** Leading whitespace contributes no word. */
  lemma {:induction false} WordsAfterSpaces(w: string, b: string)
    requires AllSpace(w)
    ensures Words(w + b) == Words(b)
  {
    if w != [] {
      assert (w + b)[0] == w[0];
      assert (w + b)[1..] == w[1..] + b;
      WordsAfterSpaces(w[1..], b);
    } else {
      assert w + b == b;
    }
  }

  lemma {:induction false} RunLengthStopsAtSpace(a: string, t: string)
    requires t == [] || IsSpace(t[0])
    ensures RunLength(a + t) == RunLength(a)
  {
    if a != [] && !IsSpace(a[0]) {
      assert (a + t)[1..] == a[1..] + t;
      RunLengthStopsAtSpace(a[1..], t);
    }
  }

  /** Text that starts with whitespace and has the words of `b` adds exactly those words after the words of `a`. */
  lemma {:induction false} WordsBeforeSpaceStart(a: string, t: string, b: string)
    requires t != [] && IsSpace(t[0]) && Words(t) == Words(b)
    ensures Words(a + t) == Words(a) + Words(b)
    decreases |a|
  {
    if a == [] {
      assert a + t == t;
    } else if IsSpace(a[0]) {
      assert (a + t)[0] == a[0];
      assert (a + t)[1..] == a[1..] + t;
      WordsBeforeSpaceStart(a[1..], t, b);
    } else {
      RunLengthStopsAtSpace(a, t);
      var n := RunLength(a);
      assert (a + t)[0] == a[0];
      assert (a + t)[..n] == a[..n];
      assert (a + t)[n..] == a[n..] + t;
      WordsBeforeSpaceStart(a[n..], t, b);
    }
  }

  /** A non-empty whitespace run separates the words on its two sides. */
  lemma {:induction false} WordsAcrossSpaces(a: string, w: string, b: string)
    requires w != [] && AllSpace(w)
    ensures Words(a + w + b) == Words(a) + Words(b)
  {
    WordsAfterSpaces(w, b);
    assert a + w + b == a + (w + b);
    assert (w + b)[0] == w[0];
    WordsBeforeSpaceStart(a, w + b, b);
  }

  /** Words are invariant under joining with a single space: `(a + ' ' + b).split() == a.split() + b.split()`. */
  lemma {:induction false} WordsAcrossSpace(a: string, b: string)
    ensures Words(a + " " + b) == Words(a) + Words(b)
  {
    WordsAcrossSpaces(a, " ", b);
  }

  lemma {:induction false} WordsBeforeSpaces(a: string, w: string)
    requires AllSpace(w)
    ensures Words(a + w) == Words(a)
  {
    if w == [] {
      assert a + w == a;
    } else {
      assert a + w == a + w + [];
      WordsAcrossSpaces(a, w, []);
    }
  }

  lemma {:induction false} WordsOfLStrip(s: string)
    ensures Words(LStrip(s)) == Words(s)
  {
    if s != [] && IsSpace(s[0]) {
      WordsOfLStrip(s[1..]);
    }
  }

  lemma {:induction false} WordsOfRStrip(s: string)
    ensures Words(RStrip(s)) == Words(s)
  {
    if s != [] && IsSpace(s[|s| - 1]) {
      var n := |s| - 1;
      WordsOfRStrip(s[..n]);
      assert s == s[..n] + [s[n]];
      WordsBeforeSpaces(s[..n], [s[n]]);
    }
  }

  /** Stripping never changes the words. */
  lemma {:induction false} WordsOfStrip(s: string)
    ensures Words(Strip(s)) == Words(s)
  {
    WordsOfLStrip(s);
    WordsOfRStrip(LStrip(s));
  }

  lemma {:induction false} WordsOfSingleton(x: string)
    ensures WordsOf([x]) == Words(x)
  {
    assert WordsOf([x]) == Words(x) + WordsOf([]);
  }

  /** Joining with single spaces keeps every word of every part, in order. */
  lemma {:induction false} WordsOfJoin(xs: seq<string>)
    ensures Words(Join(" ", xs)) == WordsOf(xs)
  {
    if |xs| == 1 {
      assert WordsOf(xs[1..]) == [];
    } else if |xs| > 1 {
      WordsOfJoin(xs[1..]);
      WordsAcrossSpace(xs[0], Join(" ", xs[1..]));
    }
  }

  /** A string has no words exactly when it is all whitespace. */
  lemma {:induction false} NoWordsIffAllSpace(s: string)
    ensures Words(s) == [] <==> AllSpace(s)
    decreases |s|
  {
    if s != [] {
      if IsSpace(s[0]) {
        NoWordsIffAllSpace(s[1..]);
        if AllSpace(s[1..]) {
          forall i | 1 <= i < |s| ensures IsSpace(s[i]) {
            assert s[i] == s[1..][i - 1];
          }
        }
      }
    }
  }

  /** ASCII lower-casing, the part of `str.lower()` the model keeps. */
  function LowerChar(c: char): char
  {
    if 'A' <= c <= 'Z' then (c as int + 32) as char else c
  }

  function Lower(s: string): (r: string)
    ensures |r| == |s|
    ensures forall i :: 0 <= i < |s| ==> r[i] == LowerChar(s[i])
  {
    seq(|s|, i requires 0 <= i < |s| => LowerChar(s[i]))
  }

  /** `sub in s`, scanning from the left. */
  function Contains(s: string, sub: string): bool
    decreases |s|
  {
    if |sub| > |s| then false
    else if s[..|sub|] == sub then true
    else s != [] && Contains(s[1..], sub)
  }

  predicate OccursAt(s: string, sub: string, i: int)
  {
    0 <= i <= |s| - |sub| && s[i..i + |sub|] == sub
  }

  /** `sub in s` holds exactly when `sub` occurs at some position of `s`. */
  lemma {:induction false} ContainsIffOccurs(s: string, sub: string)
    ensures Contains(s, sub) <==> exists i :: OccursAt(s, sub, i)
    decreases |s|
  {
    if |sub| <= |s| && s[..|sub|] != sub && s != [] {
      ContainsIffOccurs(s[1..], sub);
      if exists i :: OccursAt(s, sub, i) {
        var i :| OccursAt(s, sub, i);
        assert i > 0;
        assert OccursAt(s[1..], sub, i - 1);
      }
      if exists i :: OccursAt(s[1..], sub, i) {
        var i :| OccursAt(s[1..], sub, i);
        assert s[i + 1..i + 1 + |sub|] == s[1..][i..i + |sub|];
        assert OccursAt(s, sub, i + 1);
      }
    } else if |sub| <= |s| && s[..|sub|] == sub {
      assert OccursAt(s, sub, 0);
    } else if |sub| > |s| {
      assert forall i :: !OccursAt(s, sub, i);
    }
  }

  /** The position of the first `sep` in `s`, or `|s|` when there is none. */
  function IndexOf(s: string, sep: char): (i: nat)
    ensures i <= |s|
    ensures i < |s| ==> s[i] == sep
    ensures forall j :: 0 <= j < i ==> s[j] != sep
  {
    if s == [] || s[0] == sep then 0 else 1 + IndexOf(s[1..], sep)
  }

  /** `s.split(sep)` for a one-character separator. */
  function SplitOn(s: string, sep: char): (parts: seq<string>)
    ensures |parts| >= 1
    ensures forall k :: 0 <= k < |parts| ==> sep !in parts[k]
    decreases |s|
  {
    var i := IndexOf(s, sep);
    if i == |s| then [s] else [s[..i]] + SplitOn(s[i + 1..], sep)
  }

  /** Joining the pieces of `s.split(sep)` with `sep` gives back `s`. */
  lemma {:induction false} JoinSplitOn(s: string, sep: char)
    ensures Join([sep], SplitOn(s, sep)) == s
    decreases |s|
  {
    var i := IndexOf(s, sep);
    if i < |s| {
      var parts := SplitOn(s, sep);
      var rest := SplitOn(s[i + 1..], sep);
      assert parts == [s[..i]] + rest;
      assert parts[1..] == rest;
      JoinSplitOn(s[i + 1..], sep);
      calc {
        Join([sep], parts);
        parts[0] + [sep] + Join([sep], parts[1..]);
        s[..i] + [sep] + s[i + 1..];
        { assert s == s[..i] + [sep] + s[i + 1..]; }
        s;
      }
    }
  }

  /** The first `sep` of `a + [sep] + b` is the one after `a` when `a` has none. */
  lemma {:induction false} IndexOfAfter(a: string, sep: char, b: string)
    requires sep !in a
    ensures IndexOf(a + [sep] + b, sep) == |a|
  {
    if a != [] {
      assert (a + [sep] + b)[1..] == a[1..] + [sep] + b;
      IndexOfAfter(a[1..], sep, b);
    }
  }

  /** Splitting at the first `sep` peels off the text before it. */
  lemma {:induction false} SplitOnCons(a: string, sep: char, b: string)
    requires sep !in a
    ensures SplitOn(a + [sep] + b, sep) == [a] + SplitOn(b, sep)
  {
    var s := a + [sep] + b;
    IndexOfAfter(a, sep, b);
    assert s[..|a|] == a;
    assert s[|a| + 1..] == b;
  }

  /** Splitting pieces joined with `sep` gives them back when none of them holds `sep`. */
  lemma {:induction false} SplitOnJoin(parts: seq<string>, sep: char)
    requires |parts| >= 1
    requires forall k :: 0 <= k < |parts| ==> sep !in parts[k]
    ensures SplitOn(Join([sep], parts), sep) == parts
  {
    if |parts| > 1 {
      var rest := Join([sep], parts[1..]);
      var s := Join([sep], parts);
      assert s == parts[0] + [sep] + rest;
      IndexOfAfter(parts[0], sep, rest);
      assert s[..|parts[0]|] == parts[0];
      assert s[|parts[0]| + 1..] == rest;
      SplitOnJoin(parts[1..], sep);
    }
  }

  predicate StartsWith(s: string, prefix: string)
  {
    |prefix| <= |s| && s[..|prefix|] == prefix
  }

  predicate EndsWith(s: string, suffix: string)
  {
    |suffix| <= |s| && s[|s| - |suffix|..] == suffix
  }

  /** `s.partition(sep)`: the text before the first `sep`, whether there was one, and the text after it. */
  function Partition(s: string, sep: char): (r: (string, bool, string))
    ensures r.1 <==> sep in s
    ensures sep !in r.0
    ensures if r.1 then s == r.0 + [sep] + r.2 else r.0 == s && r.2 == ""
  {
    var i := IndexOf(s, sep);
    if i == |s| then (s, false, "") else (s[..i], true, s[i + 1..])
  }

  /** The characters at which `str.splitlines()` ends a line. */
  predicate IsLineBreak(c: char)
  {
    || ('\n' <= c <= '\r') || ('\U{1C}' <= c <= '\U{1E}')
    || c == '\U{85}' || c == '\U{2028}' || c == '\U{2029}'
  }

  function LineEnd(s: string): (i: nat)
    ensures i <= |s|
    ensures i < |s| ==> IsLineBreak(s[i])
    ensures forall j :: 0 <= j < i ==> !IsLineBreak(s[j])
  {
    if s == [] || IsLineBreak(s[0]) then 0 else 1 + LineEnd(s[1..])
  }

  /** `s.splitlines()`: lines without their terminators; `\r\n` ends one line, and a final terminator opens no empty line. */
  function SplitLines(s: string): (lines: seq<string>)
    ensures forall k :: 0 <= k < |lines| ==> forall j :: 0 <= j < |lines[k]| ==> !IsLineBreak(lines[k][j])
    decreases |s|
  {
    if s == [] then []
    else
      var i := LineEnd(s);
      if i == |s| then [s]
      else
        var next := if s[i] == '\r' && i + 1 < |s| && s[i + 1] == '\n' then i + 2 else i + 1;
        [s[..i]] + SplitLines(s[next..])
  }

  predicate IsDigit(c: char)
  {
    '0' <= c <= '9'
  }

  predicate AllDigits(s: string)
  {
    forall i :: 0 <= i < |s| ==> IsDigit(s[i])
  }

  /** The number a string of decimal digits spells. */
  function DigitsValue(s: string): nat
    requires AllDigits(s)
  {
    if s == [] then 0 else 10 * DigitsValue(s[..|s| - 1]) + (s[|s| - 1] as int - '0' as int)
  }

  function NatToString(n: nat): (s: string)
    ensures s != [] && AllDigits(s)
  {
    if n < 10 then [('0' as int + n) as char] else NatToString(n / 10) + [('0' as int + n % 10) as char]
  }

  function IntToString(i: int): (s: string)
  {
    if i < 0 then "-" + NatToString(-i) else NatToString(i)
  }

  lemma {:induction false} DigitsValueOfNatToString(n: nat)
    ensures DigitsValue(NatToString(n)) == n
  {
    if n >= 10 {
      DigitsValueOfNatToString(n / 10);
      var s := NatToString(n);
      assert s[..|s| - 1] == NatToString(n / 10);
    }
  }

  /** The sign-and-digits strings `int()` is modelled to accept. */
  function ParseInt(s: string): (r: Option<int>)
    ensures r.Some? <==> (|s| > 0 && (AllDigits(s) || ((s[0] == '-' || s[0] == '+') && |s| > 1 && AllDigits(s[1..]))))
  {
    if |s| > 0 && AllDigits(s) then Some(DigitsValue(s))
    else if |s| > 1 && s[0] == '-' && AllDigits(s[1..]) then Some(0 - DigitsValue(s[1..]) as int)
    else if |s| > 1 && s[0] == '+' && AllDigits(s[1..]) then Some(DigitsValue(s[1..]))
    else None
  }

  /** Every integer printed in decimal parses back to itself. */
  lemma {:induction false} ParseIntOfIntToString(i: int)
    ensures ParseInt(IntToString(i)) == Some(i)
  {
    if i < 0 {
      DigitsValueOfNatToString(-i);
      assert IntToString(i)[1..] == NatToString(-i);
    } else {
      DigitsValueOfNatToString(i);
    }
  }

  function Pow10(k: nat): (p: nat)
    ensures p >= 1
  {
    if k == 0 then 1 else 10 * Pow10(k - 1)
  }

  /** Unsigned decimal `ddd.ddd` (either side may be empty, not both), read exactly. */
  function ParseUnsignedDecimal(s: string): Option<real>
  {
    var i := IndexOf(s, '.');
    var whole := s[..i];
    var frac := if i < |s| then s[i + 1..] else "";
    if AllDigits(whole) && AllDigits(frac) && |whole| + |frac| > 0 then
      Some(DigitsValue(whole) as real + DigitsValue(frac) as real / Pow10(|frac|) as real)
    else None
  }

  /** The decimal strings `float()` is modelled to accept: an optional sign, then `ddd.ddd`. */
  function ParseDecimal(s: string): (r: Option<real>)
    ensures r.Some? ==> s != [] && (IsDigit(s[0]) || s[0] == '-' || s[0] == '+' || s[0] == '.')
  {
    DecimalStart(s);
    if |s| > 0 && s[0] == '-' then
      match ParseUnsignedDecimal(s[1..])
      case Some(x) => Some(-x)
      case None => None
    else if |s| > 0 && s[0] == '+' then ParseUnsignedDecimal(s[1..])
    else ParseUnsignedDecimal(s)
  }

  /** Unsigned decimal text starts with a digit or a decimal point. */
  lemma {:induction false} DecimalStart(s: string)
    ensures ParseUnsignedDecimal(s).Some? ==> s != [] && (IsDigit(s[0]) || s[0] == '.')
  {
    var i := IndexOf(s, '.');
    if i > 0 {
      assert s[..i][0] == s[0];
    }
  }

  /** Integer text reads as the same number under `float()`: `float(s) == int(s)`. */
  lemma {:induction false} ParseDecimalOfInteger(s: string)
    requires ParseInt(s).Some?
    ensures ParseDecimal(s) == Some(ParseInt(s).value as real)
  {
    var u := if AllDigits(s) then s else s[1..];
    assert AllDigits(u);
    assert forall j :: 0 <= j < |u| ==> u[j] != '.';
    assert IndexOf(u, '.') == |u|;
    assert u[..|u|] == u;
    assert ParseUnsignedDecimal(u) == Some(DigitsValue(u) as real);
  }
}
