/**
 * The nested dictionaries the two YAML-subset parsers build, and the stack of
 * open sections they keep while reading lines.
 *
 * A Python section is a dict object that the stack refers to. The stack is
 * always a chain root -> child -> grandchild, so each entry is modelled by the
 * key path of its dict inside the root; writing "into the top dict" is an
 * update of the tree at that path.
 */
module YamlTree {
  import opened Wrappers
  import opened PyStrings

  /** A parsed YAML value: text, a boolean, an integer, a float or a nested section. */
  datatype Value = Str(s: string) | Bool(b: bool) | Int(i: int) | Float(r: real) | Dict(entries: map<string, Value>)

  /** An entry of the indentation stack: the indent recorded for it and the path of its section. */
  datatype Frame = Frame(indent: int, path: seq<string>)

  /** The value reached by following `path` key by key; None once a key is missing or a value is not a section. */
  function Lookup(v: Value, path: seq<string>): Option<Value>
    decreases |path|
  {
    if path == [] then Some(v)
    else if v.Dict? && path[0] in v.entries then Lookup(v.entries[path[0]], path[1..])
    else None
  }

  /** Following one more key: it must be present in the section reached so far. */
  lemma {:induction false} LookupSnoc(v: Value, path: seq<string>, key: string)
    ensures Lookup(v, path + [key])
         == (match Lookup(v, path)
             case Some(u) => if u.Dict? && key in u.entries then Some(u.entries[key]) else None
             case None => None)
    decreases |path|
  {
    if path != [] {
      assert (path + [key])[1..] == path[1..] + [key];
      if v.Dict? && path[0] in v.entries {
        LookupSnoc(v.entries[path[0]], path[1..], key);
      }
    }
  }

  /** Once a path fails, every longer path through it fails too. */
  lemma {:induction false} LookupPastFailure(v: Value, path: seq<string>, longer: seq<string>)
    requires Lookup(v, path) == None && path <= longer
    ensures Lookup(v, longer) == None
    decreases |path|
  {
    if v.Dict? && path[0] in v.entries {
      LookupPastFailure(v.entries[path[0]], path[1..], longer[1..]);
    }
  }

  predicate IsSection(v: Value, path: seq<string>)
  {
    Lookup(v, path).Some? && Lookup(v, path).value.Dict?
  }

  /** `section[key] = x` for the section at `path`. */
  function SetAt(v: Value, path: seq<string>, key: string, x: Value): (r: Value)
    requires IsSection(v, path)
    ensures r.Dict?
    decreases |path|
  {
    if path == [] then Dict(v.entries[key := x])
    else Dict(v.entries[path[0] := SetAt(v.entries[path[0]], path[1..], key, x)])
  }

  /** After the write, the key holds the written value. */
  lemma {:induction false} SetAtThenLookup(v: Value, path: seq<string>, key: string, x: Value)
    requires IsSection(v, path)
    ensures Lookup(SetAt(v, path, key, x), path + [key]) == Some(x)
    decreases |path|
  {
    if path != [] {
      SetAtThenLookup(v.entries[path[0]], path[1..], key, x);
      assert (path + [key])[1..] == path[1..] + [key];
    }
  }

  /** The write changes no other key of that section. */
  lemma {:induction false} SetAtKeepsSiblings(v: Value, path: seq<string>, key: string, x: Value, other: string)
    requires IsSection(v, path) && other != key
    ensures Lookup(SetAt(v, path, key, x), path + [other]) == Lookup(v, path + [other])
    decreases |path|
  {
    if path != [] {
      SetAtKeepsSiblings(v.entries[path[0]], path[1..], key, x, other);
      assert (path + [other])[1..] == path[1..] + [other];
    }
  }

  /** Writing the same key of the same section twice leaves only the second write. */
  lemma {:induction false} SetAtOverwrite(v: Value, path: seq<string>, key: string, x: Value, y: Value)
    requires IsSection(v, path)
    ensures IsSection(SetAt(v, path, key, x), path)
    ensures SetAt(SetAt(v, path, key, x), path, key, y) == SetAt(v, path, key, y)
    decreases |path|
  {
    if path == [] {
      assert v.entries[key := x][key := y] == v.entries[key := y];
    } else {
      var w := v.entries[path[0]];
      SetAtOverwrite(w, path[1..], key, x, y);
      var once := SetAt(v, path, key, x);
      assert once.entries[path[0]] == SetAt(w, path[1..], key, x);
      assert v.entries[path[0] := SetAt(w, path[1..], key, x)][path[0] := SetAt(w, path[1..], key, y)]
          == v.entries[path[0] := SetAt(w, path[1..], key, y)];
    }
  }

  /** Every section on the way to the written one is still a section. */
  lemma {:induction false} SetAtKeepsSections(v: Value, path: seq<string>, key: string, x: Value, q: seq<string>)
    requires IsSection(v, path) && q <= path
    ensures IsSection(SetAt(v, path, key, x), q)
    decreases |path|
  {
    if q != [] {
      SetAtKeepsSections(v.entries[path[0]], path[1..], key, x, q[1..]);
    }
  }

  /** A path that reaches a section passes only through sections. */
  lemma {:induction false} SectionPrefix(v: Value, path: seq<string>, q: seq<string>)
    requires IsSection(v, path) && q <= path
    ensures IsSection(v, q)
    decreases |path|
  {
    if q != [] {
      SectionPrefix(v.entries[path[0]], path[1..], q[1..]);
    }
  }

  /** `len(line) - len(line.lstrip())`. */
  function LineIndent(line: string): nat
  {
    |line| - |LStrip(line)|
  }

  /** `not line.strip() or line.strip().startswith('#')`: a line both parsers skip. */
  predicate BlankOrComment(line: string)
  {
    Strip(line) == "" || Strip(line)[0] == '#'
  }

  /** A `key: value` line as the parsers read it: its indent, its key and its stripped value. */
  datatype Entry = Entry(indent: nat, key: string, value: string)

  /** `value[1:-1]`. */
  function Unquote(value: string): string
    requires |value| >= 1
  {
    if |value| == 1 then "" else value[1..|value| - 1]
  }

  /** Recorded indents grow strictly from the bottom of the stack to its top. */
  predicate IndentsIncrease(stack: seq<Frame>)
  {
    forall i, j :: 0 <= i < j < |stack| ==> stack[i].indent < stack[j].indent
  }

  function Top(stack: seq<Frame>): Frame
    requires stack != []
  {
    stack[|stack| - 1]
  }

  /**
   * The stack the parsers keep: the root entry (indent 0, empty path) at the
   * bottom, each entry's section nested in the one below it, and the top one a
   * section of the tree.
   */
  predicate StackOk(root: Value, stack: seq<Frame>)
  {
    && |stack| >= 1
    && stack[0] == Frame(0, [])
    && (forall i, j :: 0 <= i <= j < |stack| ==> stack[i].path <= stack[j].path)
    && IsSection(root, Top(stack).path)
  }

  /** Pushing an indent above the top one keeps the recorded indents increasing. */
  lemma {:induction false} PushKeepsIndents(stack: seq<Frame>, f: Frame)
    requires IndentsIncrease(stack) && stack != [] && Top(stack).indent < f.indent
    ensures IndentsIncrease(stack + [f])
  {
  }

  /** Every entry of a well-formed stack refers to a section. */
  lemma {:induction false} StackEntriesAreSections(root: Value, stack: seq<Frame>, i: nat)
    requires StackOk(root, stack) && i < |stack|
    ensures IsSection(root, stack[i].path)
  {
    SectionPrefix(root, Top(stack).path, stack[i].path);
  }

  /** Dropping entries from the top keeps the stack well-formed. */
  lemma {:induction false} PopKeepsStack(root: Value, stack: seq<Frame>, n: nat)
    requires StackOk(root, stack) && 1 <= n <= |stack|
    ensures StackOk(root, stack[..n])
  {
    StackEntriesAreSections(root, stack, n - 1);
  }

  /** Writing a value into the top section keeps the stack well-formed. */
  lemma {:induction false} WriteKeepsStack(root: Value, stack: seq<Frame>, key: string, x: Value)
    requires StackOk(root, stack)
    ensures StackOk(SetAt(root, Top(stack).path, key, x), stack)
  {
    SetAtKeepsSections(root, Top(stack).path, key, x, Top(stack).path);
  }

  /** Opening a new empty section under `key` and pushing it keeps the stack well-formed. */
  lemma {:induction false} OpenKeepsStack(root: Value, stack: seq<Frame>, key: string, indent: int)
    requires StackOk(root, stack)
    ensures StackOk(SetAt(root, Top(stack).path, key, Dict(map[])),
                    stack + [Frame(indent, Top(stack).path + [key])])
  {
    var p := Top(stack).path;
    var next := stack + [Frame(indent, p + [key])];
    SetAtThenLookup(root, p, key, Dict(map[]));
    forall i, j | 0 <= i <= j < |next|
      ensures next[i].path <= next[j].path
    {
      if j == |stack| && i < |stack| {
        assert stack[i].path <= p;
      }
    }
  }
}
