# prompt2production, the verified core

prompt2production turns a topic into a narrated explainer video: a script is
written, cut into timed segments, illustrated, scored with music and composed.
This project models the deterministic core of that pipeline in Dafny and proves
what it promises:

- the cohesive script builder: it computes the segment plan, splits the script
  into sentences, packs them greedily into word-budgeted segments, merges and
  splits segments until the count is right, assigns time slots and validates
  the speaking rate;
- the configuration object: its indentation-based YAML subset parser, dotted
  `get`, `get_output_path` and `merge_project_config`;
- the second YAML subset parser in the project builder, which pops by a
  different rule;
- the prompt cleaner and its video variant;
- the keyword-driven music prompt;
- the in-place transition annotator for visual segments;
- the small list builders: line timing, placeholder script, storyboard and
  word counter.

Python's string builtins (`split`, `strip`, `' '.join`, `split(sep)`,
`partition`, `splitlines`, `lower`, `in`) and the part of `int()`/`float()`
the parsers rely on are defined once, in `PyStrings`. Whitespace is the
`str.isspace` set, which is also the set that `\s`, `split()` and `strip()`
use. Nested dictionaries are the `YamlTree.Value` tree. A parser's stack of
open dictionaries is a stack of frames, each holding the key path of its
section.

Code that updates state step by step is modelled by methods with loops. Some
of these methods are proved equal to a specification function, and the
properties are proved about that function:

- `PackSentences`, `EstimateTiming`;
- `SimpleYamlParser`, `SimpleYaml`, `GetKeys`;
- `CleanPrompt`, `OptimizeForVideo`.

The others state the properties of their results directly in their `ensures`:
`SegmentScript`, `FindMergeIndex`, `FindSplitIndex` and `MergeProjectConfig`.
As in the source, splitting a segment of one sentence raises no error: it
gives an empty first segment followed by the whole text.

The two operations that change caller-owned dictionaries in place work on an
`array` under a `modifies` clause: `ValidateScriptTiming` and
`OptimizeVisualTransitions`.

## Model

| member | source | states |
|---|---|---|
| Tokenizer.CountTokens | core/utils/tokenizer.py:4-7 | the token count is the number of places where a run of non-whitespace starts |
| Tokenizer.WordCountIsRunStarts | core/utils/tokenizer.py:7 | `len(text.split())` equals the number of starts of non-whitespace runs |
| Tokenizer.CountTokensZero | core/utils/tokenizer.py:7 | the count is zero exactly when the text is all whitespace |
| Tokenizer.CountTokensPositive | core/utils/tokenizer.py:7 | the count is positive exactly when some character is not whitespace |
| Tokenizer.CountTokensOfJoin | core/utils/tokenizer.py:7 | joining two texts with a space adds their counts |
| TimingChain.Seconds | core/chains/timing_chain.py:11 | a line takes at least one second; exactly one when it has at most two words; otherwise half its word count |
| TimingChain.BlankLineOneSecond | core/chains/timing_chain.py:11 | a blank line is given one second |
| TimingChain.EstimateTiming | core/chains/timing_chain.py:6-14 | one entry per script line, in order, pairing the line with its seconds |
| StoryboardGen.GenerateStoryboard | core/chains/storyboard_gen.py:6-9 | one description per line, in order, each starting with `Visual: ` |
| StoryboardGen.ScriptOfStoryboard | core/chains/storyboard_gen.py:9 | removing the prefix from every description gives back the script |
| StoryboardGen.StoryboardOfAppend | core/chains/storyboard_gen.py:9 | each line is described on its own: the storyboard of a concatenation is the concatenation of storyboards |
| SceneBuilder.ToInt | core/chains/scene_builder.py:15 | `int()` keeps an int; a string converts exactly when it is digits with an optional sign after stripping; a dict raises TypeError |
| SceneBuilder.SceneCount | core/chains/scene_builder.py:15 | the count is 3 when the key is missing and the integer itself when it is an integer; a dict raises TypeError |
| SceneBuilder.Display | core/chains/scene_builder.py:19 | a string is shown as itself, and an integer's text parses back to that integer |
| SceneBuilder.ProjectName | core/chains/scene_builder.py:16 | the name is `demo` when the key is missing and the string itself when it is a string; an integer's text parses back to it |
| SceneBuilder.SceneLine | core/chains/scene_builder.py:19 | a line starts with `Scene ` and ends with `: Placeholder narration for <name>.` |
| SceneBuilder.GenerateScript | core/chains/scene_builder.py:12-23 | a failing `int(scene_count)` propagates; otherwise there are max(count, 0) lines and line i is `Scene {i+1}: Placeholder narration for {project_name}.` |
| SceneBuilder.DefaultScript | core/chains/scene_builder.py:15-21 | an empty config gives three lines for project `demo` |
| SceneBuilder.NonPositiveCountEmpty | core/chains/scene_builder.py:18-21 | a scene count of zero or less gives no lines |
| SceneBuilder.NumScenesIgnored | core/chains/scene_builder.py:15 | a `num_scenes` key does not change the script |
| SceneBuilder.SceneNumberReadsBack | core/chains/scene_builder.py:19 | every line starts with `Scene `, and the text before its first colon parses back to the scene number i+1 |
| CohesiveScriptBuilder.SegmentCount | core/chains/cohesive_script_builder.py:24 | ZeroDivisionError exactly when the segment duration is 0; otherwise for non-negative durations the count n satisfies n·d ≤ total < (n+1)·d |
| CohesiveScriptBuilder.TargetWords | core/chains/cohesive_script_builder.py:28 | for non-negative durations and rates, the target is the floor of total/60·wpm |
| CohesiveScriptBuilder.DefaultPlan | core/chains/cohesive_script_builder.py:20-28 | the defaults of 45 s, 5 s and 150 wpm give 9 segments and 112 target words |
| CohesiveScriptBuilder.WordBudget | core/chains/cohesive_script_builder.py:60-61 | for non-negative durations, rates and buffers, the budget is the floor of duration/60·wpm·buffer |
| CohesiveScriptBuilder.SplitSentences | core/chains/cohesive_script_builder.py:65 | `re.split` always gives at least one piece |
| CohesiveScriptBuilder.SentencesTerminated | core/chains/cohesive_script_builder.py:65 | every sentence piece except the last ends with `.`, `!` or `?` |
| CohesiveScriptBuilder.SentencesUnsplittable | core/chains/cohesive_script_builder.py:65 | no sentence piece contains another boundary (a mark followed by whitespace) |
| CohesiveScriptBuilder.WordsOfSentences | core/chains/cohesive_script_builder.py:65 | the words of the pieces, in order, are the words of the text |
| CohesiveScriptBuilder.OneSentence | core/chains/cohesive_script_builder.py:65 | a text with no boundary is one piece |
| CohesiveScriptBuilder.PackState | core/chains/cohesive_script_builder.py:67-95 | after the loop, the open group ends with the last sentence, and there are never more closed groups than sentences |
| CohesiveScriptBuilder.Packing | core/chains/cohesive_script_builder.py:67-95 | the groups concatenate back to the sentences, and the last group is non-empty when there are sentences |
| CohesiveScriptBuilder.PackingProperties | core/chains/cohesive_script_builder.py:67-95 | the groups concatenate to the sentences, none is empty, each fits the budget unless it is one sentence, and each group's successor's first sentence would have overflowed it |
| CohesiveScriptBuilder.PackSentences | core/chains/cohesive_script_builder.py:67-95 | the packing loop builds one segment per group of the greedy packing |
| CohesiveScriptBuilder.PackedSegmentsOfSentences | core/chains/cohesive_script_builder.py:67-95 | packed segments are indexed 1..n, carry their word counts, keep every word in order, and exist exactly when there are sentences |
| CohesiveScriptBuilder.PackedScript | core/chains/cohesive_script_builder.py:60-95 | packing a script gives at least one segment, and their words are the script's words |
| CohesiveScriptBuilder.FindMergeIndex | core/chains/cohesive_script_builder.py:99-107 | the chosen pair has the smallest combined word count, and it is the first such pair |
| CohesiveScriptBuilder.Merged | core/chains/cohesive_script_builder.py:109-112 | the merged segment's words are the left's followed by the right's; its count is the sum of theirs and it keeps the left's index |
| CohesiveScriptBuilder.MergeKeepsSegments | core/chains/cohesive_script_builder.py:109-112 | merging a pair leaves the other segments in place and keeps every word in order |
| CohesiveScriptBuilder.MergePair | core/chains/cohesive_script_builder.py:109-116 | the merged segment joins the two texts with a space and adds their counts; the list shrinks by one, is re-indexed and keeps its words |
| CohesiveScriptBuilder.FindSplitIndex | core/chains/cohesive_script_builder.py:120-127 | the chosen segment has the largest word count, and it is the first such segment |
| CohesiveScriptBuilder.SplitHalves | core/chains/cohesive_script_builder.py:130-135 | the words of the two halves, in order, are the words of the text |
| CohesiveScriptBuilder.SplitOfOneSentence | core/chains/cohesive_script_builder.py:131-135 | a one-sentence text splits into an empty first half and the whole text |
| CohesiveScriptBuilder.SplitPair | core/chains/cohesive_script_builder.py:130-150 | the halves are two segments indexed k+1 and k+2, and their words in order are the text's words |
| CohesiveScriptBuilder.SplitKeepsSegments | core/chains/cohesive_script_builder.py:137-150 | replacing a segment by its halves leaves the others in place and keeps every word in order |
| CohesiveScriptBuilder.SplitAt | core/chains/cohesive_script_builder.py:137-154 | the halves replace the segment; the list grows by one, is re-indexed and keeps its words |
| CohesiveScriptBuilder.Reindex | core/chains/cohesive_script_builder.py:114-116 | every segment's index becomes its position plus one and nothing else changes |
| CohesiveScriptBuilder.AssignTimes | core/chains/cohesive_script_builder.py:156-161 | segment k starts at k·d and ends at k·d + d |
| CohesiveScriptBuilder.TimedSegmentation | core/chains/cohesive_script_builder.py:156-161 | timing an indexed, word-preserving list yields a full segmentation of the script |
| CohesiveScriptBuilder.SegmentScript | core/chains/cohesive_script_builder.py:51-163 | IndexError exactly when num_segments < 1; otherwise exactly num_segments segments whose words in order are the script's words, with counts matching their texts, indices 1..n and back-to-back slots |
| CohesiveScriptBuilder.Classify | core/chains/cohesive_script_builder.py:173-183 | with a positive rate and duration, a buffer below 0.7 never gives good, and an empty segment is never too long when duration·buffer is not negative |
| CohesiveScriptBuilder.ClassifyByWordRate | core/chains/cohesive_script_builder.py:173-183 | shorten exactly when the words need more than duration·buffer seconds; expand exactly when they fit but need less than 0.7·duration; good otherwise |
| CohesiveScriptBuilder.Annotate | core/chains/cohesive_script_builder.py:176-183 | validation adds annotations only: text, words, duration, index and times are unchanged |
| CohesiveScriptBuilder.AnnotateIdempotent | core/chains/cohesive_script_builder.py:170-183 | validating twice gives the same annotations as validating once |
| CohesiveScriptBuilder.TimingScenarios | core/chains/cohesive_script_builder.py:168-183 | at 150 wpm, buffer 0.9 and 5 s, 11 words is the budget and good, 14 words is too many and 7 too few |
| CohesiveScriptBuilder.ValidateScriptTiming | core/chains/cohesive_script_builder.py:166-185 | ZeroDivisionError exactly when wpm is 0 and there is a segment, with nothing changed; otherwise every segment is annotated in place |
| YamlTree.SetAtThenLookup | core/utils/config.py:90 | a value written into a section is found at the section's path plus its key |
| YamlTree.SetAtKeepsSiblings | core/utils/config.py:90 | writing one key leaves every other key of the section as it was |
| YamlTree.SetAtOverwrite | cli/build_project.py:36 | a second write of the same key replaces the first |
| PyStrings.SplitOnJoin | core/utils/config.py:120 | splitting dot-free keys joined with dots gives the keys back |
| PyStrings.JoinSplitOn | core/utils/config.py:120 | joining the pieces of a split with the separator gives back the text |
| PyStrings.ParseIntOfIntToString | core/utils/config.py:83 | `int()` of an integer's decimal text is that integer |
| PyStrings.Strip | core/utils/config.py:60 | `str.strip()`: the result is no longer than the text and neither starts nor ends with whitespace |
| PyStrings.Words | core/utils/tokenizer.py:7 | `str.split()`: every word is non-empty and holds no whitespace |
| PyStrings.SplitLines | core/utils/config.py:55 | `str.splitlines()`: no line contains a line break |
| PyStrings.Partition | cli/build_project.py:20 | `str.partition(':')`: the flag says whether `:` occurs; the head holds no `:`; head, `:` and tail rebuild the text, and without a `:` the head is the whole text and the tail is empty |
| PyStrings.Lower | core/services/music_generator.py:87 | `str.lower()`: the same length, each character lower-cased on its own |
| PyStrings.ParseInt | core/utils/config.py:83 | `int()` on text succeeds exactly for non-empty decimal digits with an optional `-` or `+` sign |
| PyStrings.ParseDecimal | core/utils/config.py:86 | `float()` on text succeeds only for text that starts with a digit, a sign or a point |
| PyStrings.ParseDecimalOfInteger | core/utils/config.py:82-86 | text that `int()` accepts is accepted by `float()` with the same value |
| Config.ConfigScalar | core/utils/config.py:73-88 | a scalar value is never a dictionary |
| Config.ConfigScalarBooleans | core/utils/config.py:77-80 | `true` and `True` read as True, `false` and `False` as False |
| Config.ConfigScalarFloat | core/utils/config.py:82-86 | text that `int()` rejects and `float()` accepts reads as that float |
| Config.ConfigScalarSingleQuoted | core/utils/config.py:75-88 | only double quotes are removed: single-quoted text is kept, quotes included |
| Config.ConfigScalarRoundTrips | core/utils/config.py:75-83 | an integer's text reads as that integer, and a double-quoted text reads as its contents |
| Config.LineEntry | core/utils/config.py:56-65 | a line gives an entry exactly when it is not blank or a comment and its stripped text holds a `:`; the indent is the count of leading whitespace, and the key and value are the stripped text before and after the first `:` of the stripped line |
| Config.Pop | core/utils/config.py:68-69 | popping leaves a non-empty prefix of the stack that is the root or a frame the rule keeps |
| Config.PopAtOrBelowExact | core/utils/config.py:68-69 | with `<=`, a frame above the root survives exactly when its recorded indent is below the line's indent |
| Config.ApplyEntry | core/utils/config.py:59-95 | a line keeps the parser invariant: frames with increasing indents whose paths name sections of the tree |
| Config.ApplyEntryCases | core/utils/config.py:68-95 | after popping, a value is written into the top section, or an empty section is created there and pushed at indent + 2 |
| Config.PopStack | core/utils/config.py:68-69 | the popping loop computes the pop rule |
| Config.ParseEntry | core/utils/config.py:62-95 | one loop iteration computes the line's effect on tree and stack |
| Config.SimpleYamlParser | core/utils/config.py:48-97 | under either pop rule, the result is the tree after all lines, and it is always a dictionary |
| Config.ParsedConfig | core/utils/config.py:48-97 | the configuration read with the corrected pop rule is a dictionary |
| Config.AsWrittenChildEscapesSection | core/utils/config.py:68-69 | as written, a child indented two past its header is stored beside the header |
| Config.AsWrittenSectionMissesChild | core/utils/config.py:68-69 | as written, the header's section does not contain that child |
| Config.ChildNestsInSection | core/utils/config.py:68-95 | with the strict rule, the child is stored inside the header's section |
| Config.GetPath | core/utils/config.py:123-129 | with a default, a value is always returned |
| Config.GetValue | core/utils/config.py:113-129 | with a default, a value is always returned; a key path without dots reads that single key |
| Config.GetKeys | core/utils/config.py:120-129 | the key loop returns the value at the path, or the default once a key is missing or a value on the way is not a dict |
| Config.Get | core/utils/config.py:113-129 | `get` looks up the dot-separated parts of the key path |
| Config.GetDottedPath | core/utils/config.py:120-129 | a dotted path of dot-free keys reads the value at those keys, or the default |
| Config.GetAfterWrite | core/utils/config.py:113-129 | a value written under a section is what `get` returns at its dotted path |
| Config.GetMissing | core/utils/config.py:123-127 | once a leading part of the path is missing, `get` returns the default |
| Config.OutputPath | core/utils/config.py:131-135 | it fails only with TypeError, a path it returns is never empty, and with neither setting present the path is `output/<key>.txt` |
| Config.OutputPathDefault | core/utils/config.py:131-135 | with no `pipeline` section, the path is `output/<key>.txt` |
| Config.OutputPathConfigured | core/utils/config.py:133-135 | configured directory and file name are joined as paths |
| Config.OutputPathNonTextDirectory | core/utils/config.py:133 | a directory value that is not a string raises TypeError |
| Config.UpdateWith | core/utils/config.py:144-150 | `dict.update` succeeds exactly for a dict or the empty string, raises ValueError for any other string and TypeError otherwise; the keys are the union and the new values win |
| Config.MergeProjectConfig | core/utils/config.py:137-158 | ValueError exactly when the defaults are a non-empty string, TypeError exactly when they are a number or bool, AttributeError exactly when the configuration is not a dict; otherwise the keys are the union, project values win, defaults fill the rest, `output_dir` falls back to the configured directory and `_api_config` is the `api` section |
| BuildProject.Scalar | cli/build_project.py:29-35 | a scalar is a string or an integer |
| BuildProject.LineEntry | cli/build_project.py:16-21 | every line that is not blank or a comment gives an entry whose indent is its leading whitespace; with a `:` in the stripped line, the key is the unstripped text before its first `:` and the value the stripped text after it; a line without `:` is all key, with an empty value |
| BuildProject.ScalarRoundTrips | cli/build_project.py:29-35 | an integer's text reads as that integer; a text in either kind of quotes reads as its contents |
| BuildProject.Pop | cli/build_project.py:22-23 | popping leaves a prefix of the stack whose top indent is at most the line's |
| BuildProject.PopExact | cli/build_project.py:22-23 | every frame popped is deeper than the line's indent |
| BuildProject.ApplyEntry | cli/build_project.py:19-36 | a line keeps the parser invariant |
| BuildProject.ApplyEntryCases | cli/build_project.py:22-36 | after popping, a value is written into the top section, or an empty section is created there and pushed at indent + 2 |
| BuildProject.PopStack | cli/build_project.py:22-23 | the popping loop computes the pop rule |
| BuildProject.ParseEntry | cli/build_project.py:20-36 | one loop iteration computes the line's effect on tree and stack |
| BuildProject.SimpleYaml | cli/build_project.py:12-37 | the result is the tree after all lines, and it is always a dictionary |
| BuildProject.NoColonOpensSection | cli/build_project.py:20-27 | a line without a colon opens an empty section named by the whole stripped line |
| BuildProject.ChildNestsInSection | cli/build_project.py:22-27 | a child indented two past its header is stored inside the header's section |
| BuildProject.RepeatedKeyOverwrites | cli/build_project.py:26-36 | a repeated key at the same indent keeps only the later value |
| BuildProject.PopIsStrictRule | cli/build_project.py:22-23 | this parser pops by the strict `<` rule, the corrected rule of the configuration parser |
| MusicGenerator.AnyIn | core/services/music_generator.py:90 | true exactly when some keyword occurs as a substring |
| MusicGenerator.ChooseCategory | core/services/music_generator.py:87-107 | the category is general or one of the five tested ones, and a tested one is chosen only when one of its keywords occurs in the lower-cased topic |
| MusicGenerator.FirstMatchIsFirst | core/services/music_generator.py:90-107 | in the if/elif chain, a category is chosen exactly when it matches and no earlier one does |
| MusicGenerator.FirstMatchWins | core/services/music_generator.py:87-104 | tech, science, business, health and history are tested in that order; the first match wins |
| MusicGenerator.NoMatchIsGeneral | core/services/music_generator.py:105-107 | the general style is chosen exactly when no category matches |
| MusicGenerator.NoMatchPrompt | core/services/music_generator.py:105-120 | without a match, the prompt starts with `ambient, educational, modern` and contains `engaging, clear` |
| MusicGenerator.AiInsideAWordIsTech | core/services/music_generator.py:87-90 | matching is by substring: any topic containing `ai`, for example `email`, is tech |
| MusicGenerator.CaseInsensitive | core/services/music_generator.py:87 | topics that are equal after lower-casing get the same category |
| MusicGenerator.CreateMusicPrompt | core/services/music_generator.py:87-120 | the prompt starts with the chosen category's style and contains its mood |
| MusicGenerator.PromptFor | core/services/music_generator.py:110-120 | for every tone, the prompt starts with the style and contains the mood |
| MusicGenerator.OtherToneIsEducational | core/services/music_generator.py:110-120 | any tone other than epic, playful or professional, or none, gives the educational prompt |
| SegmentVisualizer.Annotate | core/chains/segment_visualizer.py:113-126 | segment i of n gets `transition_in` iff i > 0 and `transition_out` iff i < n-1; the first gets the establishing suffix, the last of two or more the concluding one, the middle ones keep their prompt; other keys are kept; it fails only at an end, with KeyError exactly when `visual_prompt` is missing |
| SegmentVisualizer.WithTransitions | core/chains/segment_visualizer.py:114-120 | segment i of n gets `transition_in` set to `smooth cut` when i > 0 and `transition_out` when i < n-1; otherwise those keys, and every other key, are as they were |
| SegmentVisualizer.AppendPrompt | core/chains/segment_visualizer.py:123-126 | `+=` on the prompt succeeds exactly when it is a string, and raises KeyError exactly when it is missing; the prompt gains the suffix and other keys are kept |
| SegmentVisualizer.OptimizeVisualTransitions | core/chains/segment_visualizer.py:110-128 | on success every segment is annotated in place and the same list is returned; on error the earlier segments are annotated, the failing one has only its transitions, the rest are untouched |
| PromptCleaner.CollapseOnlyReplacement | core/utils/prompt_cleaner.py:39-43 | after a run substitution, the class occurs only as its replacement |
| PromptCleaner.CollapseNoAdjacentRun | core/utils/prompt_cleaner.py:39-43 | after a run substitution, no two class characters are neighbours |
| PromptCleaner.CollapseKeepsAbsent | core/utils/prompt_cleaner.py:39-43 | a run substitution brings in no character outside its class |
| PromptCleaner.CollapseKeepsNoDouble | core/utils/prompt_cleaner.py:39-43 | a run substitution never puts two equal characters outside its class side by side |
| PromptCleaner.Collapse | core/utils/prompt_cleaner.py:39-43 | a run substitution gives empty text only for empty text, and the first character becomes the replacement exactly when it is in the class |
| PromptCleaner.CollapseKeepsOutside | core/utils/prompt_cleaner.py:39-43 | a run substitution keeps every character outside its class, in order |
| PromptCleaner.CollapsePrefixOutside | core/utils/prompt_cleaner.py:39-43 | text holding no class character is copied unchanged, whatever follows it |
| PromptCleaner.CollapseOfRun | core/utils/prompt_cleaner.py:39-43 | a maximal run of class characters becomes exactly one replacement character |
| PromptCleaner.CollapseIdempotent | core/utils/prompt_cleaner.py:39-43 | applying a run substitution twice gives the same text as applying it once |
| PromptCleaner.CollapseSpacesIsJoin | core/utils/prompt_cleaner.py:13 | on text with no whitespace at either end, collapsing whitespace runs gives the words joined by single spaces |
| PromptCleaner.NormalisedIsJoin | core/utils/prompt_cleaner.py:13 | stripping and collapsing whitespace gives the words of the prompt joined by single spaces |
| PromptCleaner.DeleteAbsentPhrase | core/utils/prompt_cleaner.py:35-36 | a text in which the phrase matches nowhere, ignoring case, is unchanged |
| PromptCleaner.DeletePhrase | core/utils/prompt_cleaner.py:35-36 | deleting a phrase never lengthens the text |
| PromptCleaner.DeleteFirstMatch | core/utils/prompt_cleaner.py:35-36 | the text before the first match, ignoring case, is kept; the match is deleted; scanning resumes right after it |
| PromptCleaner.DeletePhrasesAbsent | core/utils/prompt_cleaner.py:35-36 | when no phrase of the list matches anywhere, the whole loop leaves the text unchanged |
| PromptCleaner.DeletePhraseOnlyDeletes | core/utils/prompt_cleaner.py:35-36 | phrase deletion introduces no character |
| PromptCleaner.DeleteEach | core/utils/prompt_cleaner.py:35-36 | the loop deletes the phrases one after the other, in list order |
| PromptCleaner.CleanPrompt | core/utils/prompt_cleaner.py:7-49 | the reassignments compute the cleaned prompt: strip and collapse whitespace, delete the phrases in order, then normalise punctuation |
| PromptCleaner.CleanedPrompt | core/utils/prompt_cleaner.py:7-49 | the result is empty exactly when the prompt is; otherwise it ends with `.` and does not start with whitespace |
| PromptCleaner.PunctuatePlain | core/utils/prompt_cleaner.py:38-49 | collapsed text with no punctuation and no leading whitespace only gains a final `.` |
| PromptCleaner.StripUnchanged | core/utils/prompt_cleaner.py:49 | text with no whitespace at either end is its own `strip()` |
| PromptCleaner.CleanedPromptOfPlainText | core/utils/prompt_cleaner.py:7-49 | a prompt with none of `.!?,;` in which no phrase occurs comes back as its words joined by single spaces, followed by `.` |
| PromptCleaner.PunctuateIsTidy | core/utils/prompt_cleaner.py:38-49 | whatever deletion leaves, the result ends with `.`, starts without whitespace and is tidy |
| PromptCleaner.CleanedPromptIsTidy | core/utils/prompt_cleaner.py:9-49 | the empty prompt is returned unchanged; any other prompt gives text that ends with `.`, has no whitespace at either end, has no `!`, `?` or `;`, has no `..` or `,,`, and has only single spaces as whitespace |
| PromptCleaner.ReplaceCharIsSplitJoin | core/utils/prompt_cleaner.py:59 | replacing `.` keeps the pieces between periods and rejoins them with the replacement |
| PromptCleaner.OptimizeForVideo | core/utils/prompt_cleaner.py:52-61 | the reassignments compute the video prompt from the cleaned prompt |
| PromptCleaner.OptimizedForVideo | core/utils/prompt_cleaner.py:52-61 | the result is empty exactly when the prompt is; otherwise it ends with `.` |
| PromptCleaner.VideoPromptIsCleanedPrompt | core/utils/prompt_cleaner.py:55-61 | without `camera` or `shot` in any case, every `.` of the cleaned prompt becomes `, medium shot.`; otherwise the cleaned prompt is returned |
| PromptCleaner.VideoPromptEndsWithShot | core/utils/prompt_cleaner.py:55-59 | a non-empty prompt whose cleaned form has no camera or shot term ends with `, medium shot.` |

## Left out

- LLM, speech, image, music and video services; ffmpeg; the S3 stub; template rendering, HTML and logging. These are I/O or calls into code outside the core. Their results (the generated script, the topic) are parameters.
- Reading the configuration file, environment-variable substitution, and the singleton instance. The parsed tree is a parameter.
- The `pipeline.timing.buffer_percentage` lookups in the script builder are a `buffer` parameter.
- CohesiveScriptBuilder.Annotate: the `warning` text is kept as the two numbers it reports, the word count and the duration. The message wording and float formatting are not modelled.
- Floating point: durations, rates and buffers are exact reals, and `int()` on them is truncation. IEEE rounding, and the int-versus-float result types of `max(1, n/2)` and `int()`, are not modelled.
- `int()` and `float()` are modelled as decimal digits with an optional sign (and a decimal point for `float`) after stripping. Underscores, exponents, `inf`/`nan` and non-ASCII digits are not modelled.
- `str.lower()` and `re.IGNORECASE` are modelled as ASCII case folding. Unicode case folding is not modelled, such as the Kelvin sign matching `k`.
- Dictionary insertion order is not modelled. Dictionaries are maps.
- Aliasing between segment dictionaries is not modelled. Each segment is a value in an array, so two list entries that are the same Python dict are not modelled.
- `Path` normalisation beyond the `/` join is not modelled: `JoinPath` handles an absolute name, an empty or `.` directory and an empty name, and no other path forms.
- `create_storyboard_summary` is not modelled, because it is float formatting.
- `validate_prompt` is not part of this model. Its source file ends partway through the function.
- `clean_prompt(None)` is not modelled: the prompt is always a string.
- The call-site argument mismatches in the project builder are not modelled. The functions are modelled as defined.
- Config.OutputPath and Config.MergeProjectConfig: the fixed dotted keys `pipeline.output.directory`, `pipeline.output.filenames.<key>` and `pipeline.defaults` are given as key lists. `Config.GetDottedPath` shows that these lists are what `get` reads for the dotted text.
- SceneBuilder.GenerateScript requires `project_name` to be a string, integer or boolean, because only those have a modelled text form. The source formats any value.

## Findings

| source | as written | input that shows it | evidently intended | confidence | as-written member | corrected member |
|---|---|---|---|---|---|---|
| core/utils/config.py:68 | a new section is pushed at indent + 2, and lines pop while `indent <= top`, so a child indented exactly two spaces pops its own section | `a:\n  b: 1` gives `{a: {}, b: 1}` | `{a: {b: 1}}`, popping only while `indent < top`, as cli/build_project.py:22 does | high, not executed | Config.AsWrittenSectionMissesChild | Config.ChildNestsInSection |
