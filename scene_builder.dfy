/**
 * `SceneBuilder` (core/chains/scene_builder.py): the placeholder script, one
 * numbered line per scene, read from a project configuration dict.
 */
module SceneBuilder {
  import opened Wrappers
  import opened PyStrings
  import opened PyNumeric
  import opened YamlTree

  /** What `int(...)` can raise. */
  datatype ScriptError = ValueError | TypeError

  /** `int(v)`: integers as they are, booleans as 0 and 1, floats truncated, text parsed after stripping. */
  function ToInt(v: Value): (r: Result<int, ScriptError>)
    ensures v.Int? ==> r == Success(v.i)
    ensures v.Str? ==> (r.Success? <==> ParseInt(Strip(v.s)).Some?)
    ensures v.Dict? ==> r == Failure(TypeError)
  {
    match v
    case Int(i) => Success(i)
    case Bool(b) => Success(if b then 1 else 0)
    case Float(x) => Success(Trunc(x))
    case Str(s) =>
      (match ParseInt(Strip(s))
       case Some(i) => Success(i)
       case None => Failure(ValueError))
    case Dict(_) => Failure(TypeError)
  }

  /** `int(config.get("scene_count", 3))`. */
  function SceneCount(config: map<string, Value>): (r: Result<int, ScriptError>)
    ensures "scene_count" !in config ==> r == Success(3)
    ensures "scene_count" in config && config["scene_count"].Int? ==> r == Success(config["scene_count"].i)
    ensures "scene_count" in config && config["scene_count"].Dict? ==> r == Failure(TypeError)
  {
    ToInt(if "scene_count" in config then config["scene_count"] else Int(3))
  }

  /** Values whose `str()` is modelled: text, integers and booleans. */
  predicate Displayable(v: Value)
  {
    v.Str? || v.Int? || v.Bool?
  }

  /** `f"{v}"` for a displayable value. */
  function Display(v: Value): (r: string)
    requires Displayable(v)
    ensures v.Str? ==> r == v.s
    ensures v.Int? ==> ParseInt(r) == Some(v.i)
  {
    match v
    case Str(s) => s
    case Int(i) => ParseIntOfIntToString(i); IntToString(i)
    case Bool(b) => if b then "True" else "False"
  }

  /** `config.get("project_name", "demo")`, as it is printed. */
  function ProjectName(config: map<string, Value>): (r: string)
    requires "project_name" in config ==> Displayable(config["project_name"])
    ensures "project_name" !in config ==> r == "demo"
    ensures "project_name" in config && config["project_name"].Str? ==> r == config["project_name"].s
    ensures "project_name" in config && config["project_name"].Int? ==> ParseInt(r) == Some(config["project_name"].i)
  {
    if "project_name" in config then Display(config["project_name"]) else "demo"
  }

  const SceneWord: string := "Scene "
  const Narration: string := ": Placeholder narration for "

  /** `f"Scene {i + 1}: Placeholder narration for {project_name}."`. */
  function SceneLine(i: nat, name: string): (line: string)
    ensures StartsWith(line, SceneWord)
    ensures EndsWith(line, Narration + name + ".")
  {
    var digits := IntToString(i + 1);
    var line := SceneWord + digits + Narration + name + ".";
    assert line == SceneWord + (digits + (Narration + name + "."));
    line
  }

  /** `generate_script(config)`: a line per scene, none when the count is not positive. */
  function GenerateScript(config: map<string, Value>): (r: Result<seq<string>, ScriptError>)
    requires "project_name" in config ==> Displayable(config["project_name"])
    ensures SceneCount(config).Failure? ==> r == Failure(SceneCount(config).error)
    ensures SceneCount(config).Success? ==>
      && r.Success?
      && |r.value| == (if SceneCount(config).value < 0 then 0 else SceneCount(config).value)
      && forall i :: 0 <= i < |r.value| ==> r.value[i] == SceneLine(i, ProjectName(config))
  {
    match SceneCount(config)
    case Failure(e) => Failure(e)
    case Success(n) =>
      var count := if n < 0 then 0 else n;
      Success(seq(count, i requires 0 <= i < count => SceneLine(i, ProjectName(config))))
  }

  /** Without settings there are three lines for the project `demo`. */
  lemma {:induction false} DefaultScript()
    ensures GenerateScript(map[]) == Success([SceneLine(0, "demo"), SceneLine(1, "demo"), SceneLine(2, "demo")])
  {
    assert SceneCount(map[]) == Success(3);
    assert ProjectName(map[]) == "demo";
    var lines := GenerateScript(map[]).value;
    assert |lines| == 3;
    assert lines == [lines[0], lines[1], lines[2]];
  }

  /** A zero or negative scene count gives no lines. */
  lemma {:induction false} NonPositiveCountEmpty(config: map<string, Value>, n: int)
    requires "project_name" in config ==> Displayable(config["project_name"])
    requires "scene_count" in config && config["scene_count"] == Int(n) && n <= 0
    ensures GenerateScript(config) == Success([])
  {
  }

  /** Only `scene_count` sets the count: a `num_scenes` entry changes nothing. */
  lemma {:induction false} NumScenesIgnored(config: map<string, Value>, v: Value)
    requires "project_name" in config ==> Displayable(config["project_name"])
    ensures GenerateScript(config["num_scenes" := v]) == GenerateScript(config)
  {
    var other := config["num_scenes" := v];
    assert SceneCount(other) == SceneCount(config);
    assert ProjectName(other) == ProjectName(config);
  }

  /** `partition(':')` of text whose first `:` ends `a`. */
  lemma {:induction false} PartitionAfter(a: string, c: string)
    requires ':' !in a && c != [] && c[0] == ':'
    ensures Partition(a + c, ':') == (a, true, c[1..])
  {
    assert a + c == a + [':'] + c[1..];
    IndexOfAfter(a, ':', c[1..]);
    assert (a + c)[..|a|] == a;
    assert (a + c)[|a| + 1..] == c[1..];
  }

  /** Each line carries its scene number, 1 for the first: the text before its first `:` reads back as that number. */
  lemma {:induction false} SceneNumberReadsBack(i: nat, name: string, line: string)
    requires line == SceneLine(i, name)
    ensures StartsWith(line, SceneWord)
    ensures ParseInt(Partition(line[|SceneWord|..], ':').0) == Some(i + 1)
  {
    var digits := IntToString(i + 1);
    var rest := Narration + name + ".";
    assert line == SceneWord + (digits + rest);
    assert line[|SceneWord|..] == digits + rest;
    assert forall k :: 0 <= k < |digits| ==> IsDigit(digits[k]);
    assert ':' !in digits;
    assert rest[0] == ':';
    PartitionAfter(digits, rest);
    ParseIntOfIntToString(i + 1);
  }
}
