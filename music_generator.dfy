/**
 * `MusicGenerator` (core/services/music_generator.py): `create_music_prompt`,
 * which picks a music style from keywords in the topic and phrases the
 * prompt by the configured tone.
 */
module MusicGenerator {
  import opened PyStrings
  import opened YamlTree

  /** The branches of the keyword chain, in the order they are tested, then the fallback. */
  datatype Category = Tech | Science | Business | Health | History | General

  const Tested: seq<Category> := [Tech, Science, Business, Health, History]

  function Keywords(c: Category): seq<string>
  {
    match c
    case Tech => ["technology", "tech", "software", "computer", "digital", "ai"]
    case Science => ["science", "biology", "chemistry", "physics", "nature"]
    case Business => ["business", "finance", "corporate", "management"]
    case Health => ["health", "medical", "medicine", "wellness"]
    case History => ["history", "ancient", "classical", "traditional"]
    case General => []
  }

  function Style(c: Category): string
  {
    match c
    case Tech => "ambient electronic, tech house, futuristic"
    case Science => "atmospheric, orchestral, documentary"
    case Business => "corporate, uplifting, professional"
    case Health => "calming, healing, ambient"
    case History => "orchestral, period-appropriate, cinematic"
    case General => "ambient, educational, modern"
  }

  function Mood(c: Category): string
  {
    match c
    case Tech => "innovative, forward-thinking"
    case Science => "wonder, discovery"
    case Business => "confident, productive"
    case Health => "peaceful, reassuring"
    case History => "epic, timeless"
    case General => "engaging, clear"
  }

  /** `any(word in s for word in words)`. */
  function AnyIn(s: string, words: seq<string>): (r: bool)
    ensures r <==> exists k :: 0 <= k < |words| && Contains(s, words[k])
    decreases |words|
  {
    if words == [] then false
    else Contains(s, words[0]) || AnyIn(s, words[1..])
  }

  /** The if/elif chain of lines 90-107: the first category in `cs` with a keyword inside `t`, else the general one. */
  function FirstMatch(t: string, cs: seq<Category>): (c: Category)
    ensures c == General || c in cs
    decreases |cs|
  {
    if cs == [] then General
    else if AnyIn(t, Keywords(cs[0])) then cs[0]
    else FirstMatch(t, cs[1..])
  }

  /** A category other than the general one is chosen only for a keyword of its own. */
  lemma {:induction false} FirstMatchHits(t: string, cs: seq<Category>)
    ensures FirstMatch(t, cs) != General ==> AnyIn(t, Keywords(FirstMatch(t, cs)))
    decreases |cs|
  {
    if cs != [] && !AnyIn(t, Keywords(cs[0])) {
      FirstMatchHits(t, cs[1..]);
    }
  }

  /** Lines 87-107: the topic is lower-cased, then the categories are tested in order. */
  function ChooseCategory(topic: string): (c: Category)
    ensures c == General || c in Tested
    ensures c != General ==> AnyIn(Lower(topic), Keywords(c))
  {
    FirstMatchHits(Lower(topic), Tested);
    FirstMatch(Lower(topic), Tested)
  }

  predicate Distinct(cs: seq<Category>)
  {
    forall i, j :: 0 <= i < j < |cs| ==> cs[i] != cs[j]
  }

  /** The position of the first category in `cs` with a keyword inside `t`, or `|cs|` when none has one. */
  function FirstHit(t: string, cs: seq<Category>): (m: nat)
    ensures m <= |cs|
    ensures m < |cs| ==> AnyIn(t, Keywords(cs[m]))
    ensures forall j :: 0 <= j < m ==> !AnyIn(t, Keywords(cs[j]))
    decreases |cs|
  {
    if cs == [] || AnyIn(t, Keywords(cs[0])) then 0
    else
      var m := FirstHit(t, cs[1..]);
      assert forall j :: 1 <= j < m + 1 ==> cs[j] == cs[1..][j - 1];
      m + 1
  }

  /** The chain stops at the first hit. */
  lemma {:induction false} FirstMatchAtFirstHit(t: string, cs: seq<Category>)
    ensures FirstMatch(t, cs) == if FirstHit(t, cs) < |cs| then cs[FirstHit(t, cs)] else General
    decreases |cs|
  {
    if cs != [] && !AnyIn(t, Keywords(cs[0])) {
      FirstMatchAtFirstHit(t, cs[1..]);
    }
  }

  /** In a list of distinct categories, the k-th is chosen exactly when it matches and no earlier one does. */
  lemma {:induction false} FirstMatchIsFirst(t: string, cs: seq<Category>, k: nat)
    requires Distinct(cs) && General !in cs && k < |cs|
    ensures FirstMatch(t, cs) == cs[k]
        <==> AnyIn(t, Keywords(cs[k])) && forall j :: 0 <= j < k ==> !AnyIn(t, Keywords(cs[j]))
  {
    var m := FirstHit(t, cs);
    FirstMatchAtFirstHit(t, cs);
    if m < k {
      assert cs[m] != cs[k];
    } else if k < m < |cs| {
      assert cs[k] != cs[m];
    }
  }

  /** The general category is chosen exactly when no category in the list matches. */
  lemma {:induction false} FirstMatchNone(t: string, cs: seq<Category>)
    requires General !in cs
    ensures FirstMatch(t, cs) == General <==> forall j :: 0 <= j < |cs| ==> !AnyIn(t, Keywords(cs[j]))
    decreases |cs|
  {
    if cs != [] {
      FirstMatchNone(t, cs[1..]);
      assert forall j :: 1 <= j < |cs| ==> cs[j] == cs[1..][j - 1];
    }
  }

  /** A tested category is chosen exactly when one of its keywords occurs and none of an earlier category's does. */
  lemma {:induction false} FirstMatchWins(topic: string, k: nat)
    requires k < |Tested|
    ensures ChooseCategory(topic) == Tested[k]
        <==> AnyIn(Lower(topic), Keywords(Tested[k])) && forall j :: 0 <= j < k ==> !AnyIn(Lower(topic), Keywords(Tested[j]))
  {
    FirstMatchIsFirst(Lower(topic), Tested, k);
  }

  /** The fallback is chosen exactly when no tested category has a keyword in the topic. */
  lemma {:induction false} NoMatchIsGeneral(topic: string)
    ensures ChooseCategory(topic) == General <==> forall j :: 0 <= j < |Tested| ==> !AnyIn(Lower(topic), Keywords(Tested[j]))
  {
    FirstMatchNone(Lower(topic), Tested);
  }

  /** `sub in a + sub + b`. */
  lemma {:induction false} ContainsMiddle(a: string, sub: string, b: string)
    ensures Contains(a + sub + b, sub)
  {
    var s := a + sub + b;
    assert s[|a|..|a| + |sub|] == sub;
    assert OccursAt(s, sub, |a|);
    ContainsIffOccurs(s, sub);
  }

  /** Matching is by substring, not by word: any topic with `ai` inside it, such as `email`, gets the tech style. */
  lemma {:induction false} AiInsideAWordIsTech(pre: string, post: string)
    ensures ChooseCategory(pre + "ai" + post) == Tech
  {
    var topic := pre + "ai" + post;
    var t := Lower(topic);
    assert t == Lower(pre) + "ai" + Lower(post);
    ContainsMiddle(Lower(pre), "ai", Lower(post));
    assert Keywords(Tech)[5] == "ai";
    assert Tested[0] == Tech;
  }

  /** Upper-case letters in the topic do not matter. */
  lemma {:induction false} CaseInsensitive(topic: string, other: string)
    requires Lower(topic) == Lower(other)
    ensures ChooseCategory(topic) == ChooseCategory(other)
  {
  }

  /** `config.get('tone', 'educational')`. */
  function Tone(config: map<string, Value>): Value
  {
    if "tone" in config then config["tone"] else Str("educational")
  }

  /** Text made of the style, a middle, the mood and a tail starts with the style and contains the mood. */
  lemma {:induction false} StyleMoodFrame(style: string, middle: string, mood: string, tail: string)
    ensures StartsWith(style + middle + mood + tail, style)
    ensures Contains(style + middle + mood + tail, mood)
  {
    assert (style + middle + mood + tail)[..|style|] == style;
    ContainsMiddle(style + middle, mood, tail);
  }

  /** Lines 110-120: the tone chooses the words around the style and the mood. */
  function PromptFor(style: string, mood: string, tone: Value): (p: string)
    ensures StartsWith(p, style)
    ensures Contains(p, mood)
  {
    var (middle, tail) :=
      if tone == Str("epic") then (", epic cinematic, ", ", dramatic builds")
      else if tone == Str("playful") then (", upbeat, playful, ", ", light and fun")
      else if tone == Str("professional") then (", ", ", sophisticated, subtle")
      else (", ", ", clear, supportive, not distracting");
    StyleMoodFrame(style, middle, mood, tail);
    style + middle + mood + tail
  }

  /** `create_music_prompt(topic, config)`: whatever the tone, the prompt starts with the chosen style and names the chosen mood. */
  function CreateMusicPrompt(topic: string, config: map<string, Value>): (p: string)
    ensures StartsWith(p, Style(ChooseCategory(topic)))
    ensures Contains(p, Mood(ChooseCategory(topic)))
  {
    var c := ChooseCategory(topic);
    PromptFor(Style(c), Mood(c), Tone(config))
  }

  /** A topic with no keyword of any category gets the general style and mood. */
  lemma {:induction false} NoMatchPrompt(topic: string, config: map<string, Value>)
    requires forall j :: 0 <= j < |Tested| ==> !AnyIn(Lower(topic), Keywords(Tested[j]))
    ensures StartsWith(CreateMusicPrompt(topic, config), "ambient, educational, modern")
    ensures Contains(CreateMusicPrompt(topic, config), "engaging, clear")
  {
    NoMatchIsGeneral(topic);
  }

  /** Any tone other than epic, playful and professional, or none at all, gives the educational prompt. */
  lemma {:induction false} OtherToneIsEducational(topic: string, config: map<string, Value>)
    requires Tone(config) != Str("epic") && Tone(config) != Str("playful") && Tone(config) != Str("professional")
    ensures CreateMusicPrompt(topic, config) == CreateMusicPrompt(topic, map[])
  {
  }
}
