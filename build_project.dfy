/**
 * `BuildProject` (cli/build_project.py): `_simple_yaml`, the YAML-subset
 * parser the command-line entry point falls back on. It keeps the same kind
 * of indentation stack as the configuration loader, but pops only entries
 * recorded deeper than the line, keeps keys unstripped, treats a line without
 * `:` as a section header, accepts both quote kinds and converts no booleans.
 */
module BuildProject {
  import opened Wrappers
  import opened PyStrings
  import opened YamlTree
  import Config

  datatype YamlState = YamlState(root: Value, stack: seq<Frame>)

  predicate StateOk(st: YamlState)
  {
    StackOk(st.root, st.stack) && IndentsIncrease(st.stack)
  }

  /** `data = {}` alone on `stack = [(0, data)]`. */
  function Initial(): (st: YamlState)
    ensures StateOk(st)
  {
    YamlState(Dict(map[]), [Frame(0, [])])
  }

  /**
   * Lines 17-21: blank and comment lines give no entry; otherwise the key is
   * the stripped line up to its first `:` (all of it when there is none) and
   * the value is what follows, stripped.
   */
  function LineEntry(line: string): (r: Option<Entry>)
    ensures r.Some? <==> !BlankOrComment(line)
    ensures r.Some? ==> ':' !in r.value.key && r.value.indent == LineIndent(line)
    ensures r.Some? && ':' !in Strip(line) ==> r.value.key == Strip(line) && r.value.value == ""
    ensures r.Some? && ':' in Strip(line) ==> var t := Strip(line); var k := |r.value.key|;
      k < |t| && t[k] == ':' && r.value.key == t[..k] && r.value.value == Strip(t[k + 1..])
  {
    if BlankOrComment(line) then None
    else
      var t := Strip(line);
      var (key, found, value) := Partition(t, ':');
      assert found ==> t[..|key|] == key && t[|key|] == ':' && t[|key| + 1..] == value;
      Some(Entry(LineIndent(line), key, Strip(value)))
  }

  /** Lines 29-35: either kind of quotes is removed; otherwise an integer if `int()` accepts it, else the text. */
  function Scalar(value: string): (v: Value)
    requires value != ""
    ensures v.Str? || v.Int?
  {
    if (value[0] == '"' && value[|value| - 1] == '"') || (value[0] == '\'' && value[|value| - 1] == '\'') then Str(Unquote(value))
    else
      match ParseInt(value)
      case Some(i) => Int(i)
      case None => Str(value)
  }

  /** Integers written in decimal read back as integers, and text in either kind of quotes as that text. */
  lemma {:induction false} ScalarRoundTrips(i: int, s: string)
    ensures Scalar(IntToString(i)) == Int(i)
    ensures Scalar("\"" + s + "\"") == Str(s)
    ensures Scalar("'" + s + "'") == Str(s)
  {
    ParseIntOfIntToString(i);
    var t := IntToString(i);
    assert t[0] == '-' || IsDigit(t[0]);
    var q := "\"" + s + "\"";
    assert q[1..|q| - 1] == s;
    var q' := "'" + s + "'";
    assert q'[1..|q'| - 1] == s;
  }

  /**
   * Lines 22-23: `while indent < stack[-1][0]: stack.pop()`. There is no
   * length guard: the root entry, recorded at indent 0, is never above a line.
   */
  function Pop(stack: seq<Frame>, indent: nat): (r: seq<Frame>)
    requires |stack| >= 1 && stack[0].indent == 0
    ensures 1 <= |r| <= |stack| && r == stack[..|r|]
    ensures Top(r).indent <= indent
    decreases |stack|
  {
    if indent < Top(stack).indent then Pop(stack[..|stack| - 1], indent) else stack
  }

  /** Exactly the entries recorded deeper than the line are popped. */
  lemma {:induction false} PopExact(stack: seq<Frame>, indent: nat)
    requires |stack| >= 1 && stack[0].indent == 0
    ensures forall i :: |Pop(stack, indent)| <= i < |stack| ==> indent < stack[i].indent
    decreases |stack|
  {
    if indent < Top(stack).indent {
      var n := |stack| - 1;
      PopExact(stack[..n], indent);
      assert forall i :: 0 <= i < n ==> stack[..n][i] == stack[i];
    }
  }

  /** Lines 22-36 for one entry: pop, then open a section recorded at `indent + 2` or store the value. */
  function ApplyEntry(st: YamlState, e: Entry): (r: YamlState)
    requires StateOk(st)
    ensures StateOk(r)
  {
    var stack := Pop(st.stack, e.indent);
    PopKeepsState(st, e.indent, stack);
    var top := Top(stack).path;
    if e.value == "" then
      OpenKeepsState(st.root, stack, e.key, e.indent + 2);
      YamlState(SetAt(st.root, top, e.key, Dict(map[])), stack + [Frame(e.indent + 2, top + [e.key])])
    else
      WriteKeepsState(st.root, stack, e.key, Scalar(e.value));
      YamlState(SetAt(st.root, top, e.key, Scalar(e.value)), stack)
  }

  lemma {:induction false} PopKeepsState(st: YamlState, indent: nat, stack: seq<Frame>)
    requires StateOk(st) && stack == Pop(st.stack, indent)
    ensures StateOk(YamlState(st.root, stack))
  {
    PopKeepsStack(st.root, st.stack, |stack|);
  }

  lemma {:induction false} WriteKeepsState(root: Value, stack: seq<Frame>, key: string, x: Value)
    requires StateOk(YamlState(root, stack))
    ensures StateOk(YamlState(SetAt(root, Top(stack).path, key, x), stack))
  {
    WriteKeepsStack(root, stack, key, x);
  }

  lemma {:induction false} OpenKeepsState(root: Value, stack: seq<Frame>, key: string, indent: int)
    requires StateOk(YamlState(root, stack)) && Top(stack).indent < indent
    ensures StateOk(YamlState(SetAt(root, Top(stack).path, key, Dict(map[])), stack + [Frame(indent, Top(stack).path + [key])]))
  {
    OpenKeepsStack(root, stack, key, indent);
    PushKeepsIndents(stack, Frame(indent, Top(stack).path + [key]));
  }

  /** Lines 17-36 for one line. */
  function ApplyLine(st: YamlState, entry: Option<Entry>): (r: YamlState)
    requires StateOk(st)
    ensures StateOk(r)
  {
    match entry
    case None => st
    case Some(e) => ApplyEntry(st, e)
  }

  /** The state after reading `lines` in order. */
  function ParseLines(lines: seq<string>): (st: YamlState)
    ensures StateOk(st)
    decreases |lines|
  {
    if lines == [] then Initial()
    else ApplyLine(ParseLines(lines[..|lines| - 1]), LineEntry(lines[|lines| - 1]))
  }

  lemma {:induction false} ParseLinesStep(lines: seq<string>, n: nat)
    requires n < |lines|
    ensures ParseLines(lines[..n + 1]) == ApplyLine(ParseLines(lines[..n]), LineEntry(lines[n]))
  {
    assert lines[..n + 1][..n] == lines[..n];
  }

  /** The two outcomes of an entry, once the stack has been popped. */
  lemma {:induction false} ApplyEntryCases(st: YamlState, e: Entry, stack: seq<Frame>)
    requires StateOk(st) && stack == Pop(st.stack, e.indent)
    ensures stack != [] && IsSection(st.root, Top(stack).path)
    ensures e.value == "" ==>
      ApplyEntry(st, e)
      == YamlState(SetAt(st.root, Top(stack).path, e.key, Dict(map[])), stack + [Frame(e.indent + 2, Top(stack).path + [e.key])])
    ensures e.value != "" ==>
      ApplyEntry(st, e) == YamlState(SetAt(st.root, Top(stack).path, e.key, Scalar(e.value)), stack)
  {
    PopKeepsState(st, e.indent, stack);
  }

  /** Lines 22-23, run in place on the stack. */
  method PopStack(stack: seq<Frame>, indent: nat) returns (r: seq<Frame>)
    requires |stack| >= 1 && stack[0].indent == 0
    ensures r == Pop(stack, indent)
  {
    r := stack;
    while indent < r[|r| - 1].indent
      invariant 1 <= |r| && r[0].indent == 0 && Pop(r, indent) == Pop(stack, indent)
      decreases |r|
    {
      r := r[..|r| - 1];
    }
  }

  /** The body of the loop at lines 17-36 for a line's entry. */
  method ParseEntry(root: Value, stack: seq<Frame>, entry: Option<Entry>) returns (root': Value, stack': seq<Frame>)
    requires StateOk(YamlState(root, stack))
    ensures YamlState(root', stack') == ApplyLine(YamlState(root, stack), entry)
  {
    root', stack' := root, stack;
    if entry.None? {
      return;
    }
    var Entry(indent, key, value) := entry.value;
    stack' := PopStack(stack, indent);
    ApplyEntryCases(YamlState(root, stack), entry.value, stack');
    var top := stack'[|stack'| - 1].path;
    if value == "" {
      root' := SetAt(root, top, key, Dict(map[]));
      stack' := stack' + [Frame(indent + 2, top + [key])];
    } else {
      root' := SetAt(root, top, key, Scalar(value));
    }
  }

  /** The root of a well-formed state is a dict. */
  lemma {:induction false} StateRootIsDict(st: YamlState)
    requires StateOk(st)
    ensures st.root.Dict?
  {
    SectionPrefix(st.root, Top(st.stack).path, []);
  }

  /** `_simple_yaml(text)`. */
  method SimpleYaml(text: string) returns (data: Value)
    ensures data == ParseLines(SplitLines(text)).root
    ensures data.Dict?
  {
    var lines := SplitLines(text);
    var root := Dict(map[]);
    var stack := [Frame(0, [])];
    for n := 0 to |lines|
      invariant YamlState(root, stack) == ParseLines(lines[..n])
    {
      ParseLinesStep(lines, n);
      root, stack := ParseEntry(root, stack, LineEntry(lines[n]));
    }
    assert lines[..|lines|] == lines;
    StateRootIsDict(YamlState(root, stack));
    data := root;
  }

  // ---------------------------------------------------------------------------
  // Properties

  /** A non-blank line without `:` opens a section named by the whole stripped line. */
  lemma {:induction false} NoColonOpensSection(st: YamlState, line: string)
    requires StateOk(st) && !BlankOrComment(line) && ':' !in Strip(line)
    ensures LineEntry(line) == Some(Entry(LineIndent(line), Strip(line), ""))
    ensures Lookup(ApplyLine(st, LineEntry(line)).root, Top(Pop(st.stack, LineIndent(line))).path + [Strip(line)])
         == Some(Dict(map[]))
  {
    var e := Entry(LineIndent(line), Strip(line), "");
    var stack := Pop(st.stack, e.indent);
    ApplyEntryCases(st, e, stack);
    SetAtThenLookup(st.root, Top(stack).path, e.key, Dict(map[]));
  }

  /** A child indented two more than its header is stored inside the header's section. */
  lemma {:induction false} ChildNestsInSection(st: YamlState, header: Entry, child: Entry, parent: seq<string>)
    requires StateOk(st) && header.value == "" && child.value != "" && child.indent == header.indent + 2
    requires parent == Top(Pop(st.stack, header.indent)).path
    ensures Lookup(ApplyEntry(ApplyEntry(st, header), child).root, parent + [header.key, child.key])
         == Some(Scalar(child.value))
  {
    var stack := Pop(st.stack, header.indent);
    ApplyEntryCases(st, header, stack);
    var mid := ApplyEntry(st, header);
    var pushed := stack + [Frame(header.indent + 2, parent + [header.key])];
    assert mid.stack == pushed;
    assert Pop(pushed, child.indent) == pushed;
    ApplyEntryCases(mid, child, pushed);
    SetAtThenLookup(mid.root, parent + [header.key], child.key, Scalar(child.value));
    assert parent + [header.key] + [child.key] == parent + [header.key, child.key];
  }

  /** Two values for the same key at the same place: only the second one is kept. */
  lemma {:induction false} RepeatedKeyOverwrites(st: YamlState, first: Entry, second: Entry)
    requires StateOk(st) && first.value != "" && second.value != ""
    requires first.key == second.key && first.indent == second.indent
    ensures ApplyEntry(ApplyEntry(st, first), second) == ApplyEntry(st, second)
  {
    var stack := Pop(st.stack, first.indent);
    ApplyEntryCases(st, first, stack);
    var mid := ApplyEntry(st, first);
    assert Pop(stack, second.indent) == stack;
    ApplyEntryCases(mid, second, stack);
    SetAtOverwrite(st.root, Top(stack).path, first.key, Scalar(first.value), Scalar(second.value));
  }

  /**
   * Since the root entry is recorded at indent 0, this parser's unguarded pop
   * is the configuration loader's guarded pop with the strict rule.
   */
  lemma {:induction false} PopIsStrictRule(stack: seq<Frame>, indent: nat)
    requires |stack| >= 1 && stack[0].indent == 0
    ensures Pop(stack, indent) == Config.Pop(stack, indent, Config.PopBelow)
    decreases |stack|
  {
    if indent < Top(stack).indent {
      assert |stack| > 1;
      PopIsStrictRule(stack[..|stack| - 1], indent);
    }
  }
}
