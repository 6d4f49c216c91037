/**
 * `Config` (core/utils/config.py): the fallback YAML-subset parser, dotted
 * `get`, `get_output_path` and `merge_project_config`. The loaded
 * configuration is passed in as a value instead of living in the singleton.
 */
module Config {
  import opened Wrappers
  import opened PyStrings
  import opened YamlTree

  /** The exceptions these operations can raise. */
  datatype ConfigError = TypeError | ValueError | AttributeError

  // ---------------------------------------------------------------------------
  // _simple_yaml_parser (lines 48-97)

  datatype ParseState = ParseState(root: Value, stack: seq<Frame>)

  /** The parser state before the first line: an empty root dict, alone on the stack. */
  function Initial(): (st: ParseState)
    ensures StateOk(st)
  {
    ParseState(Dict(map[]), [Frame(0, [])])
  }

  predicate StateOk(st: ParseState)
  {
    StackOk(st.root, st.stack) && IndentsIncrease(st.stack)
  }

  /**
   * A non-empty scalar: double-quoted text is unquoted; `true`/`True` and
   * `false`/`False` are booleans; otherwise an integer if `int()` accepts it,
   * else a float if `float()` does, else the text itself.
   */
  function ConfigScalar(value: string): (v: Value)
    requires value != ""
    ensures !v.Dict?
  {
    if value[0] == '"' && value[|value| - 1] == '"' then Str(Unquote(value))
    else if value == "true" || value == "True" then Bool(true)
    else if value == "false" || value == "False" then Bool(false)
    else
      match ParseInt(value)
      case Some(i) => Int(i)
      case None =>
        match ParseDecimal(value)
        case Some(r) => Float(r)
        case None => Str(value)
  }

  /** Integers written in decimal read back as integers, and quoted text as that text. */
  lemma {:induction false} ConfigScalarRoundTrips(i: int, s: string)
    ensures ConfigScalar(IntToString(i)) == Int(i)
    ensures ConfigScalar("\"" + s + "\"") == Str(s)
  {
    ParseIntOfIntToString(i);
    var t := IntToString(i);
    assert t[0] == '-' || IsDigit(t[0]);
    var q := "\"" + s + "\"";
    assert q[1..|q| - 1] == s;
  }

  /** The four spellings of a boolean read as booleans. */
  lemma {:induction false} ConfigScalarBooleans()
    ensures ConfigScalar("true") == Bool(true) && ConfigScalar("True") == Bool(true)
    ensures ConfigScalar("false") == Bool(false) && ConfigScalar("False") == Bool(false)
  {
  }

  /** Text that `int()` rejects and `float()` accepts reads as that float. */
  lemma {:induction false} ConfigScalarFloat(value: string, r: real)
    requires value != ""
    requires ParseInt(value) == None && ParseDecimal(value) == Some(r)
    ensures ConfigScalar(value) == Float(r)
  {
    assert value[0] != '"' && value != "true" && value != "True" && value != "false" && value != "False" by {
      var c := value[0];
      assert IsDigit(c) || c == '-' || c == '+' || c == '.';
    }
  }

  /** Single quotes are not unquoted: single-quoted text is kept with its quotes. */
  lemma {:induction false} ConfigScalarSingleQuoted(s: string)
    ensures ConfigScalar("'" + s + "'") == Str("'" + s + "'")
  {
    var v := "'" + s + "'";
    assert v[0] == '\'' && !IsDigit(v[0]);
  }

  /** Which pop rule the parser applies. */
  datatype PopRule =
    | PopAtOrBelow  // `indent <= top`: the rule as written (line 68)
    | PopBelow      // `indent < top`: the rule that keeps a child indented by two inside its section

  function PopsOff(rule: PopRule, indent: int, top: int): bool
  {
    match rule
    case PopAtOrBelow => indent <= top
    case PopBelow => indent < top
  }

  /** `while <pop condition> and len(indent_stack) > 1: indent_stack.pop()`. */
  function Pop(stack: seq<Frame>, indent: int, rule: PopRule): (r: seq<Frame>)
    requires |stack| >= 1
    ensures 1 <= |r| <= |stack| && r == stack[..|r|]
    ensures |r| == 1 || !PopsOff(rule, indent, Top(r).indent)
    decreases |stack|
  {
    if |stack| > 1 && PopsOff(rule, indent, Top(stack).indent) then Pop(stack[..|stack| - 1], indent, rule)
    else stack
  }

  /**
   * With recorded indents increasing up the stack, the inclusive rule pops
   * exactly the entries above the root whose recorded indent is at least the
   * line's indent.
   */
  lemma {:induction false} PopAtOrBelowExact(stack: seq<Frame>, indent: int)
    requires |stack| >= 1 && IndentsIncrease(stack)
    ensures forall i :: 1 <= i < |stack| ==> (i < |Pop(stack, indent, PopAtOrBelow)| <==> stack[i].indent < indent)
    decreases |stack|
  {
    var n := |stack| - 1;
    if n > 0 && indent <= stack[n].indent {
      PopAtOrBelowExact(stack[..n], indent);
      assert forall i :: 1 <= i < n ==> stack[..n][i] == stack[i];
    }
  }

  /**
   * Lines 56-65: blank and comment lines, and lines without `:`, give no entry;
   * otherwise the stripped line is split at its first `:`.
   */
  function LineEntry(line: string): (r: Option<Entry>)
    ensures r.Some? <==> !BlankOrComment(line) && ':' in Strip(line)
    ensures r.Some? ==> ':' !in r.value.key && r.value.indent == LineIndent(line)
    ensures r.Some? ==> var t := Strip(line);
      exists i :: 0 <= i < |t| && t[i] == ':' && ':' !in t[..i]
        && r.value.key == Strip(t[..i]) && r.value.value == Strip(t[i + 1..])
  {
    if BlankOrComment(line) then None
    else
      var t := Strip(line);
      var (key, found, value) := Partition(t, ':');
      if !found then None
      else
        StripKeepsAbsent(key, ':');
        assert t[..|key|] == key && t[|key|] == ':' && t[|key| + 1..] == value;
        Some(Entry(LineIndent(line), Strip(key), Strip(value)))
  }

  /** Lines 68-95 for one entry: pop, then store the scalar or open a section recorded at `indent + 2`. */
  function ApplyEntry(st: ParseState, e: Entry, rule: PopRule): (r: ParseState)
    requires StateOk(st)
    ensures StateOk(r)
  {
    var stack := Pop(st.stack, e.indent, rule);
    ApplyEntryKeepsState(st, e, rule, stack);
    var top := Top(stack).path;
    if e.value != "" then ParseState(SetAt(st.root, top, e.key, ConfigScalar(e.value)), stack)
    else ParseState(SetAt(st.root, top, e.key, Dict(map[])), stack + [Frame(e.indent + 2, top + [e.key])])
  }

  lemma {:induction false} ApplyEntryKeepsState(st: ParseState, e: Entry, rule: PopRule, stack: seq<Frame>)
    requires StateOk(st) && stack == Pop(st.stack, e.indent, rule)
    ensures StateOk(ParseState(st.root, stack))
    ensures e.value != "" ==> StateOk(ParseState(SetAt(st.root, Top(stack).path, e.key, ConfigScalar(e.value)), stack))
    ensures e.value == "" ==>
      StateOk(ParseState(SetAt(st.root, Top(stack).path, e.key, Dict(map[])),
                         stack + [Frame(e.indent + 2, Top(stack).path + [e.key])]))
  {
    PopKeepsStack(st.root, st.stack, |stack|);
    if e.value != "" {
      WriteKeepsStack(st.root, stack, e.key, ConfigScalar(e.value));
    } else {
      OpenKeepsStack(st.root, stack, e.key, e.indent + 2);
      PushKeepsIndents(stack, Frame(e.indent + 2, Top(stack).path + [e.key]));
    }
  }

  /** Lines 56-95 for a line's entry, if it has one. */
  function ApplyLine(st: ParseState, entry: Option<Entry>, rule: PopRule): (r: ParseState)
    requires StateOk(st)
    ensures StateOk(r)
  {
    match entry
    case None => st
    case Some(e) => ApplyEntry(st, e, rule)
  }

  /** One line of `_simple_yaml_parser` under a given pop rule. */
  function ParseLineWith(st: ParseState, line: string, rule: PopRule): (r: ParseState)
    requires StateOk(st)
    ensures StateOk(r)
  {
    ApplyLine(st, LineEntry(line), rule)
  }

  /** The state after reading `lines` in order. */
  function ParseLinesWith(lines: seq<string>, rule: PopRule): (st: ParseState)
    ensures StateOk(st)
    decreases |lines|
  {
    if lines == [] then Initial()
    else ParseLineWith(ParseLinesWith(lines[..|lines| - 1], rule), lines[|lines| - 1], rule)
  }

  lemma {:induction false} ParseLinesStep(lines: seq<string>, n: nat, rule: PopRule)
    requires n < |lines|
    ensures ParseLinesWith(lines[..n + 1], rule) == ParseLineWith(ParseLinesWith(lines[..n], rule), lines[n], rule)
  {
    assert lines[..n + 1][..n] == lines[..n];
  }

  /** Lines 68-69: the pop loop, run in place on the stack. */
  method PopStack(stack: seq<Frame>, indent: int, rule: PopRule) returns (r: seq<Frame>)
    requires |stack| >= 1
    ensures r == Pop(stack, indent, rule)
  {
    r := stack;
    while PopsOff(rule, indent, r[|r| - 1].indent) && |r| > 1
      invariant 1 <= |r| && Pop(r, indent, rule) == Pop(stack, indent, rule)
      decreases |r|
    {
      r := r[..|r| - 1];
    }
  }

  /** The two outcomes of an entry, once the stack has been popped. */
  lemma {:induction false} ApplyEntryCases(st: ParseState, e: Entry, rule: PopRule, stack: seq<Frame>)
    requires StateOk(st) && stack == Pop(st.stack, e.indent, rule)
    ensures stack != [] && IsSection(st.root, Top(stack).path)
    ensures e.value != "" ==>
      ApplyEntry(st, e, rule) == ParseState(SetAt(st.root, Top(stack).path, e.key, ConfigScalar(e.value)), stack)
    ensures e.value == "" ==>
      ApplyEntry(st, e, rule)
      == ParseState(SetAt(st.root, Top(stack).path, e.key, Dict(map[])), stack + [Frame(e.indent + 2, Top(stack).path + [e.key])])
  {
    ApplyEntryKeepsState(st, e, rule, stack);
  }

  /** The body of the loop at lines 66-95 for a line's entry: pop in place, then store or open. */
  method ParseEntry(root: Value, stack: seq<Frame>, entry: Option<Entry>, rule: PopRule) returns (root': Value, stack': seq<Frame>)
    requires StateOk(ParseState(root, stack))
    ensures ParseState(root', stack') == ApplyLine(ParseState(root, stack), entry, rule)
  {
    root', stack' := root, stack;
    if entry.None? {
      return;
    }
    var Entry(indent, key, value) := entry.value;
    stack' := PopStack(stack, indent, rule);
    ApplyEntryCases(ParseState(root, stack), entry.value, rule, stack');
    var top := stack'[|stack'| - 1].path;
    if value != "" {
      root' := SetAt(root, top, key, ConfigScalar(value));
    } else {
      root' := SetAt(root, top, key, Dict(map[]));
      stack' := stack' + [Frame(indent + 2, top + [key])];
    }
  }

  /**
   * `Config._simple_yaml_parser(text)`, run with the pop rule given: line 68
   * as written is `PopAtOrBelow`; `PopBelow` is the corrected rule.
   */
  method SimpleYamlParser(text: string, rule: PopRule) returns (result: Value)
    ensures result == ParseLinesWith(SplitLines(text), rule).root
    ensures result.Dict?
  {
    var lines := SplitLines(text);
    var root := Dict(map[]);
    var stack := [Frame(0, [])];
    for n := 0 to |lines|
      invariant ParseState(root, stack) == ParseLinesWith(lines[..n], rule)
    {
      ParseLinesStep(lines, n, rule);
      root, stack := ParseEntry(root, stack, LineEntry(lines[n]), rule);
    }
    assert lines[..|lines|] == lines;
    StateRootIsDict(ParseState(root, stack));
    result := root;
  }

  /** The configuration the parser builds from `text`, with the corrected pop rule. */
  function ParsedConfig(text: string): (config: Value)
    ensures config.Dict?
  {
    var st := ParseLinesWith(SplitLines(text), PopBelow);
    StateRootIsDict(st);
    st.root
  }

  /** The root of a well-formed state is a dict. */
  lemma {:induction false} StateRootIsDict(st: ParseState)
    requires StateOk(st)
    ensures st.root.Dict?
  {
    SectionPrefix(st.root, Top(st.stack).path, []);
  }

  // ---------------------------------------------------------------------------
  // Line 68: a child indented by two under its section header

  /** As written, the child line pops the header's section off and is applied to the section below it. */
  lemma {:induction false} AsWrittenChildStep(st: ParseState, header: Entry, child: Entry, stack: seq<Frame>, mid: ParseState)
    requires StateOk(st) && header.value == "" && child.indent == header.indent + 2
    requires stack == Pop(st.stack, header.indent, PopAtOrBelow) && mid == ApplyEntry(st, header, PopAtOrBelow)
    ensures StateOk(mid) && Pop(mid.stack, child.indent, PopAtOrBelow) == stack
    ensures IsSection(st.root, Top(stack).path)
    ensures mid.root == SetAt(st.root, Top(stack).path, header.key, Dict(map[]))
  {
    ApplyEntryCases(st, header, PopAtOrBelow, stack);
    assert mid.stack[..|mid.stack| - 1] == stack;
    assert Top(stack).indent < header.indent + 2 by {
      if |stack| == 1 {
        assert stack[0] == st.stack[0];
      }
    }
  }

  /** A child indented two more than its header is popped back out of the header's section as written. */
  lemma {:induction false} AsWrittenChildEscapesSection(st: ParseState, header: Entry, child: Entry, parent: seq<string>)
    requires StateOk(st) && header.value == "" && child.value != "" && child.indent == header.indent + 2
    requires parent == Top(Pop(st.stack, header.indent, PopAtOrBelow)).path
    ensures Lookup(ApplyEntry(ApplyEntry(st, header, PopAtOrBelow), child, PopAtOrBelow).root, parent + [child.key])
         == Some(ConfigScalar(child.value))
  {
    var stack := Pop(st.stack, header.indent, PopAtOrBelow);
    var mid := ApplyEntry(st, header, PopAtOrBelow);
    AsWrittenChildStep(st, header, child, stack, mid);
    ApplyEntryCases(mid, child, PopAtOrBelow, stack);
    SetAtThenLookup(mid.root, parent, child.key, ConfigScalar(child.value));
  }

  /** As written, the header's section stays without the child. */
  lemma {:induction false} AsWrittenSectionMissesChild(st: ParseState, header: Entry, child: Entry, parent: seq<string>)
    requires StateOk(st) && header.value == "" && child.value != "" && child.indent == header.indent + 2
    requires parent == Top(Pop(st.stack, header.indent, PopAtOrBelow)).path
    ensures Lookup(ApplyEntry(ApplyEntry(st, header, PopAtOrBelow), child, PopAtOrBelow).root, parent + [header.key, child.key])
         == None
  {
    var stack := Pop(st.stack, header.indent, PopAtOrBelow);
    var mid := ApplyEntry(st, header, PopAtOrBelow);
    AsWrittenChildStep(st, header, child, stack, mid);
    ApplyEntryCases(mid, child, PopAtOrBelow, stack);
    var after := SetAt(mid.root, parent, child.key, ConfigScalar(child.value));
    if header.key != child.key {
      SetAtThenLookup(st.root, parent, header.key, Dict(map[]));
      SetAtKeepsSiblings(mid.root, parent, child.key, ConfigScalar(child.value), header.key);
      assert Lookup(after, parent + [header.key]) == Some(Dict(map[]));
    } else {
      SetAtThenLookup(mid.root, parent, child.key, ConfigScalar(child.value));
      assert Lookup(after, parent + [header.key]) == Some(ConfigScalar(child.value));
    }
    LookupSnoc(after, parent + [header.key], child.key);
    assert parent + [header.key] + [child.key] == parent + [header.key, child.key];
  }

  /** With the corrected rule the header opens a section that the child's line does not pop. */
  lemma {:induction false} CorrectedChildStep(st: ParseState, header: Entry, child: Entry, stack: seq<Frame>, mid: ParseState)
    requires StateOk(st) && header.value == "" && child.indent == header.indent + 2
    requires stack == Pop(st.stack, header.indent, PopBelow) && mid == ApplyEntry(st, header, PopBelow)
    ensures StateOk(mid) && mid.stack == stack + [Frame(child.indent, Top(stack).path + [header.key])]
    ensures Pop(mid.stack, child.indent, PopBelow) == mid.stack
  {
    ApplyEntryCases(st, header, PopBelow, stack);
    var pushed := stack + [Frame(header.indent + 2, Top(stack).path + [header.key])];
    assert mid.stack == pushed;
    assert Pop(pushed, child.indent, PopBelow) == pushed;
  }

  /** With the corrected rule the same child is stored inside the header's section. */
  lemma {:induction false} ChildNestsInSection(st: ParseState, header: Entry, child: Entry, parent: seq<string>)
    requires StateOk(st) && header.value == "" && child.value != "" && child.indent == header.indent + 2
    requires parent == Top(Pop(st.stack, header.indent, PopBelow)).path
    ensures Lookup(ApplyEntry(ApplyEntry(st, header, PopBelow), child, PopBelow).root, parent + [header.key, child.key])
         == Some(ConfigScalar(child.value))
  {
    var stack := Pop(st.stack, header.indent, PopBelow);
    var mid := ApplyEntry(st, header, PopBelow);
    CorrectedChildStep(st, header, child, stack, mid);
    ApplyEntryCases(mid, child, PopBelow, mid.stack);
    SetAtThenLookup(mid.root, parent + [header.key], child.key, ConfigScalar(child.value));
    assert parent + [header.key] + [child.key] == parent + [header.key, child.key];
  }

  // ---------------------------------------------------------------------------
  // get (lines 113-129)

  /** The value reached by the keys, or `default` once a key is missing or a value on the way is not a dict. */
  function GetPath(config: Value, keys: seq<string>, default: Option<Value>): (r: Option<Value>)
    ensures default.Some? ==> r.Some?
  {
    match Lookup(config, keys)
    case Some(v) => Some(v)
    case None => default
  }

  /** `get(key_path, default)`: the keys are the parts of `key_path` between dots. */
  function GetValue(config: Value, keyPath: string, default: Option<Value>): (r: Option<Value>)
    ensures default.Some? ==> r.Some?
    ensures '.' !in keyPath ==> r == GetPath(config, [keyPath], default)
  {
    GetPath(config, SplitOn(keyPath, '.'), default)
  }

  /** Lines 122-127: walk the keys one at a time. */
  method GetKeys(config: Value, keys: seq<string>, default: Option<Value>) returns (r: Option<Value>)
    ensures r == GetPath(config, keys, default)
  {
    var value := config;
    for i := 0 to |keys|
      invariant Lookup(config, keys[..i]) == Some(value)
    {
      LookupSnoc(config, keys[..i], keys[i]);
      assert keys[..i + 1] == keys[..i] + [keys[i]];
      if value.Dict? && keys[i] in value.entries {
        value := value.entries[keys[i]];
      } else {
        LookupPastFailure(config, keys[..i + 1], keys);
        return default;
      }
    }
    assert keys[..|keys|] == keys;
    return Some(value);
  }

  /** `Config.get(key_path, default)`. */
  method Get(config: Value, keyPath: string, default: Option<Value>) returns (r: Option<Value>)
    ensures r == GetValue(config, keyPath, default)
  {
    var keys := SplitOn(keyPath, '.');
    r := GetKeys(config, keys, default);
  }

  /** A path of keys without dots, written with dots, reaches exactly what the key path reaches. */
  lemma {:induction false} GetDottedPath(config: Value, keys: seq<string>, default: Option<Value>)
    requires |keys| >= 1 && forall k :: 0 <= k < |keys| ==> '.' !in keys[k]
    ensures GetValue(config, Join(".", keys), default) == if Lookup(config, keys).Some? then Lookup(config, keys) else default
  {
    SplitOnJoin(keys, '.');
  }

  /** A value written under a section is what `get` reads back at its dotted path. */
  lemma {:induction false} GetAfterWrite(config: Value, path: seq<string>, key: string, x: Value, default: Option<Value>)
    requires IsSection(config, path)
    requires forall k :: 0 <= k < |path| ==> '.' !in path[k]
    requires '.' !in key
    ensures GetValue(SetAt(config, path, key, x), Join(".", path + [key]), default) == Some(x)
  {
    SetAtThenLookup(config, path, key, x);
    GetDottedPath(SetAt(config, path, key, x), path + [key], default);
  }

  /** Once a leading part of the path is missing, `get` gives the default. */
  lemma {:induction false} GetMissing(config: Value, keys: seq<string>, prefix: seq<string>, default: Option<Value>)
    requires Lookup(config, prefix) == None && prefix <= keys
    ensures GetPath(config, keys, default) == default
  {
    LookupPastFailure(config, prefix, keys);
  }

  // ---------------------------------------------------------------------------
  // get_output_path (lines 131-135)

  /** `'pipeline.output.directory'` split at its dots. */
  const DirectoryKeys: seq<string> := ["pipeline", "output", "directory"]

  /** `'pipeline.output.filenames'` split at its dots; the file name key follows. */
  const FilenamesKeys: seq<string> := ["pipeline", "output", "filenames"]

  /** `'pipeline.defaults'` split at its dots. */
  const DefaultsKeys: seq<string> := ["pipeline", "defaults"]

  /**
   * `Path(dir) / name` as text: an absolute name replaces the directory, and
   * the empty path and `.` stand for the current directory.
   */
  function JoinPath(dir: string, name: string): (path: string)
    ensures path != []
    ensures name != [] && name[0] == '/' ==> path == name
  {
    if name != [] && name[0] == '/' then name
    else if dir == "" || dir == "." then (if name == "" then "." else name)
    else if name == "" then dir
    else dir + "/" + name
  }

  /**
   * `get_output_path(filename_key)`: the f-string key path
   * `pipeline.output.filenames.<key>` splits into the three fixed keys and
   * the parts of the file name key. A directory or file name that is not
   * text raises TypeError.
   */
  function OutputPath(config: Value, filenameKey: string): (r: Result<string, ConfigError>)
    ensures r.Failure? ==> r.error == TypeError
    ensures r.Success? ==> r.value != []
    ensures Lookup(config, DirectoryKeys).None? && Lookup(config, FilenamesKeys + SplitOn(filenameKey, '.')).None?
            ==> r == Success(JoinPath("output", filenameKey + ".txt"))
  {
    var dir := GetPath(config, DirectoryKeys, Some(Str("output")));
    var name := GetPath(config, FilenamesKeys + SplitOn(filenameKey, '.'), Some(Str(filenameKey + ".txt")));
    if !dir.value.Str? || !name.value.Str? then Failure(TypeError)
    else Success(JoinPath(dir.value.s, name.value.s))
  }

  /** Without a `pipeline` section the file goes to `output/<key>.txt`. */
  lemma {:induction false} OutputPathDefault(config: Value, filenameKey: string)
    requires Lookup(config, ["pipeline"]) == None
    requires filenameKey == "" || filenameKey[0] != '/'
    ensures OutputPath(config, filenameKey) == Success("output/" + filenameKey + ".txt")
  {
    GetMissing(config, DirectoryKeys, ["pipeline"], Some(Str("output")));
    GetMissing(config, FilenamesKeys + SplitOn(filenameKey, '.'), ["pipeline"], Some(Str(filenameKey + ".txt")));
    var name := filenameKey + ".txt";
    assert name != [] && name[0] != '/';
    assert "output" != "" && "output" != ".";
    assert "output" + "/" + name == "output/" + filenameKey + ".txt";
  }

  /** A configured text directory and file name are joined. */
  lemma {:induction false} OutputPathConfigured(config: Value, filenameKey: string, dir: string, name: string)
    requires '.' !in filenameKey
    requires Lookup(config, DirectoryKeys) == Some(Str(dir))
    requires Lookup(config, FilenamesKeys + [filenameKey]) == Some(Str(name))
    ensures OutputPath(config, filenameKey) == Success(JoinPath(dir, name))
  {
    assert SplitOn(filenameKey, '.') == [filenameKey];
  }

  /** A configured directory that is not text makes `Path(...)` raise TypeError. */
  lemma {:induction false} OutputPathNonTextDirectory(config: Value, filenameKey: string, dir: Value)
    requires Lookup(config, DirectoryKeys) == Some(dir) && !dir.Str?
    ensures OutputPath(config, filenameKey) == Failure(TypeError)
  {
  }

  // ---------------------------------------------------------------------------
  // merge_project_config (lines 137-158)

  /** `merged.update(x)`: a dict adds its entries, the empty string adds nothing, other text and non-iterables raise. */
  function UpdateWith(merged: map<string, Value>, x: Value): (r: Result<map<string, Value>, ConfigError>)
    ensures r.Success? <==> x.Dict? || x == Str("")
    ensures r.Failure? ==> (r.error == ValueError <==> x.Str?)
    ensures r.Success? ==> r.value.Keys == merged.Keys + (if x.Dict? then x.entries.Keys else {})
    ensures r.Success? ==> forall k :: k in r.value ==> r.value[k] == if x.Dict? && k in x.entries then x.entries[k] else merged[k]
  {
    match x
    case Dict(entries) => Success(merged + entries)
    case Str(s) => if s == "" then Success(merged) else Failure(ValueError)
    case _ => Failure(TypeError)
  }

  /** `get('pipeline.defaults', {})`. */
  function Defaults(config: Value): Value
  {
    GetPath(config, DefaultsKeys, Some(Dict(map[]))).value
  }

  /** The keys the defaults contribute: those of a dict, none otherwise. */
  function DefaultKeys(defaults: Value): set<string>
  {
    if defaults.Dict? then defaults.entries.Keys else {}
  }

  /** `Config.merge_project_config(project_config)`. */
  method MergeProjectConfig(config: Value, project: map<string, Value>) returns (r: Result<map<string, Value>, ConfigError>)
    ensures r == Failure(ValueError) <==> Defaults(config).Str? && Defaults(config).s != ""
    ensures r == Failure(TypeError) <==> Defaults(config).Int? || Defaults(config).Bool? || Defaults(config).Float?
    ensures r == Failure(AttributeError) <==> !config.Dict?
    ensures r.Success? ==> r.value.Keys == DefaultKeys(Defaults(config)) + project.Keys + {"output_dir", "_api_config"}
    ensures r.Success? ==> forall k :: k in project && k != "_api_config" ==> r.value[k] == project[k]
    ensures r.Success? ==> forall k ::
              k in DefaultKeys(Defaults(config)) && k !in project && k != "_api_config" ==> r.value[k] == Defaults(config).entries[k]
    ensures r.Success? && "output_dir" !in project && "output_dir" !in DefaultKeys(Defaults(config))
            ==> r.value["output_dir"] == GetPath(config, DirectoryKeys, Some(Str("output"))).value
    ensures r.Success? ==> r.value["_api_config"] == if "api" in config.entries then config.entries["api"] else Dict(map[])
  {
    var defaults := GetKeys(config, DefaultsKeys, Some(Dict(map[])));
    ghost var d := Defaults(config);
    assert defaults.value == d;
    var merged: map<string, Value> := map[];
    var updated := UpdateWith(merged, defaults.value);
    if updated.Failure? {
      return Failure(updated.error);
    }
    assert updated.value.Keys == DefaultKeys(d);
    merged := updated.value + project;
    if "output_dir" !in merged {
      var dir := GetKeys(config, DirectoryKeys, Some(Str("output")));
      merged := merged["output_dir" := dir.value];
    }
    if !config.Dict? {
      return Failure(AttributeError);
    }
    merged := merged["_api_config" := if "api" in config.entries then config.entries["api"] else Dict(map[])];
    return Success(merged);
  }
}
