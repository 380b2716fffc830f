/**
 * The instruction texts the server sends: the research prompt chosen by detail level, the critique
 * prompt wrapped around one provider's output, and the referee's fusion prompt that embeds all nine
 * texts under fixed labels.
 */
module Prompts {
  import opened Wrappers

  // ---- Research prompt -------------------------------------------------------------------

  // The first word of each head is a literal of its own, so that the verifier can read the
  // head's first character (BuildPrompt tells the two templates apart by it).

  /** Everything of the in-depth template before the topic, up to and including the opening quote. */
  const InDepthHead: string := "In-depth" + " trend research and analysis for: \""
  /** Everything of the in-depth template after the topic, from the closing quote on. */
  const InDepthTail: string :=
    "\"\n    1. Give a synthesized summary of what this topic is and why it matters in 2025."
    + "\n    2. List the top 10 mega trends related to this topic globally."
    + "\n    3. List the top consumer trends or implications for this topic."
    + "\n    4. Give at least 3 future scenarios or directions for this topic, with reasoning."
    + "\n    5. Provide supporting stats, innovations, and notable sources (if available)."
    + "\n    Write in clear, business/professional language, numbered/structured, and avoid speculation."

  const HighLevelHead: string := "Give" + " a high-level summary and 3-5 key points about \""
  const HighLevelTail: string :=
    "\" as a current global trend. List top future directions, and highlight any notable stats"
    + " or innovations. Respond in clear, concise bullets."

  /** How a template literal renders the request's `topic`: a missing one becomes "undefined". */
  function TopicText(topic: Option<string>): string {
    topic.GetOr("undefined")
  }

  /** The detail level the handler uses when the request carries none: the default parameter. */
  const DefaultDetailLevel: string := "high"

  /** A prompt built from the in-depth template. */
  predicate IsInDepth(prompt: string) {
    |prompt| >= |InDepthHead| && prompt[..|InDepthHead|] == InDepthHead
  }

  /** The text between a template's head and tail: the inverse of filling in a template. */
  function QuotedTopic(prompt: string): Option<string> {
    if |prompt| >= |InDepthHead| + |InDepthTail|
      && prompt[..|InDepthHead|] == InDepthHead
      && prompt[|prompt| - |InDepthTail|..] == InDepthTail
    then Some(prompt[|InDepthHead|..|prompt| - |InDepthTail|])
    else if |prompt| >= |HighLevelHead| + |HighLevelTail|
      && prompt[..|HighLevelHead|] == HighLevelHead
      && prompt[|prompt| - |HighLevelTail|..] == HighLevelTail
    then Some(prompt[|HighLevelHead|..|prompt| - |HighLevelTail|])
    else None
  }

  /** Filling `text` into a template between `head` and `tail` keeps head, text and tail apart. */
  lemma FilledParts(head: string, text: string, tail: string)
    ensures var p := head + text + tail;
      && p[..|head|] == head
      && p[|p| - |tail|..] == tail
      && p[|head|..|p| - |tail|] == text
  {
    var p := head + text + tail;
    assert p == head + (text + tail);
    assert (text + tail)[..|text|] == text;
  }

  /**
   * `buildPrompt`: the in-depth template exactly when the detail level is "high" or absent (the
   * default parameter), the high-level template for every other value; both carry the topic between
   * quotes, verbatim, so that it can be read back.
   */
  function BuildPrompt(topic: Option<string>, detailLevel: Option<string>): (r: string)
    ensures IsInDepth(r) <==> detailLevel.GetOr(DefaultDetailLevel) == "high"
    ensures QuotedTopic(r) == Some(TopicText(topic))
  {
    var t := TopicText(topic);
    if detailLevel.GetOr(DefaultDetailLevel) == "high" then
      FilledParts(InDepthHead, t, InDepthTail);
      InDepthHead + t + InDepthTail
    else
      var p := HighLevelHead + t + HighLevelTail;
      FilledParts(HighLevelHead, t, HighLevelTail);
      assert HighLevelHead[0] == 'G' && InDepthHead[0] == 'I';
      assert p[0] == HighLevelHead[0];
      assert p[..|InDepthHead|][0] == p[0];
      p
  }

  // ---- Critique prompt -------------------------------------------------------------------

  const CritiqueHead: string :=
    "Here is an AI-generated trend report. Critique for accuracy, completeness, and suggest"
    + " improvements or missing points:\n\n"

  /** The critique prompt: a fixed instruction followed by the subject text, verbatim. */
  function CritiquePrompt(targetText: string): (r: string)
    ensures |r| == |CritiqueHead| + |targetText|
    ensures r[..|CritiqueHead|] == CritiqueHead
    ensures r[|CritiqueHead|..] == targetText
  {
    CritiqueHead + targetText
  }

  /** Different subject texts give different critique prompts. */
  lemma CritiquePromptInjective(a: string, b: string)
    requires CritiquePrompt(a) == CritiquePrompt(b)
    ensures a == b
  {
    assert CritiquePrompt(a)[|CritiqueHead|..] == CritiquePrompt(b)[|CritiqueHead|..];
  }

  // ---- Fusion prompt ---------------------------------------------------------------------

  /**
   * The labels before each of the nine texts in the referee prompt: the instructions and the three
   * main outputs (OpenAI, Perplexity, Gemini), then the six validations.
   */
  const FusionLabels: seq<string> := [
    "\nThere are three AI-generated trend reports (OpenAI, Perplexity, Gemini) and six cross-validations."
    + "\n- Carefully read all responses and validations below."
    + "\n- Your task: Synthesize one summary that contains **all important, validated information**"
    + " from every model (but avoid duplicate facts)."
    + "\n- For every key point, **cite** the model(s) as sources, e.g. [OpenAI], [Perplexity], [Gemini]."
    + "\n- Clearly list numbers for facts and the corresponding model (e.g. \"Fact X: ... [OpenAI, Gemini]\")."
    + "\n- Be neutral if sources disagree or uncertain."
    + "\n\n---OpenAI Main Output:\n",
    "\n\n---Perplexity Main Output:\n",
    "\n\n---Gemini Main Output:\n",
    "\n\n---Validations:\nOpenAI by Perplexity:\n",
    "\n\nOpenAI by Gemini:\n",
    "\n\nPerplexity by OpenAI:\n",
    "\n\nPerplexity by Gemini:\n",
    "\n\nGemini by OpenAI:\n",
    "\n\nGemini by Perplexity:\n"
  ]

  /** Each label followed by its text, in order. */
  function Sections(labels: seq<string>, texts: seq<string>): string
    requires |labels| == |texts|
  {
    if labels == [] then "" else labels[0] + texts[0] + Sections(labels[1..], texts[1..])
  }

  /** The referee prompt over the nine texts (three outputs, then six validations). */
  function FusionPrompt(texts: seq<string>): string
    requires |texts| == |FusionLabels|
  {
    Sections(FusionLabels, texts) + "\n"
  }

  /** Where the k-th text starts inside Sections(labels, texts). */
  function SectionStart(labels: seq<string>, texts: seq<string>, k: nat): nat
    requires |labels| == |texts| && k < |labels|
  {
    |Sections(labels[..k], texts[..k])| + |labels[k]|
  }

  /** Sections splits around its k-th label and text. */
  lemma {:induction false} SectionsSplit(labels: seq<string>, texts: seq<string>, k: nat)
    requires |labels| == |texts| && k < |labels|
    ensures Sections(labels, texts)
      == Sections(labels[..k], texts[..k]) + labels[k] + texts[k] + Sections(labels[k + 1..], texts[k + 1..])
  {
    if k == 0 {
      assert labels[..0] == [] && texts[..0] == [];
    } else {
      var L, T := labels[1..], texts[1..];
      SectionsSplit(L, T, k - 1);
      assert L[..k - 1] == labels[..k][1..] && T[..k - 1] == texts[..k][1..];
      assert L[k - 1] == labels[k] && T[k - 1] == texts[k];
      assert L[k..] == labels[k + 1..] && T[k..] == texts[k + 1..];
      var head, middle := labels[0] + texts[0], Sections(L[..k - 1], T[..k - 1]);
      assert Sections(labels[..k], texts[..k]) == head + middle;
      assert Sections(labels, texts) == head + Sections(L, T);
      Regroup(head, middle, labels[k], texts[k], Sections(labels[k + 1..], texts[k + 1..]));
    }
  }

  /** Concatenation regrouped. */
  lemma Regroup(a: string, b: string, c: string, d: string, e: string)
    ensures a + (b + c + d + e) == a + b + c + d + e
  {
  }

  /** In a + l + t + rest, the label l sits at offset |a| and the text t right after it. */
  lemma LabelledAt(a: string, l: string, t: string, rest: string)
    ensures var p := a + l + t + rest;
      && p[|a|..|a| + |l|] == l
      && p[|a| + |l|..|a| + |l| + |t|] == t
  {
    var p := a + l + t + rest;
    assert p == a + (l + (t + rest));
    assert p[|a|..] == l + (t + rest);
    assert p[|a| + |l|..] == t + rest;
  }

  /** In Sections(labels, texts) + suffix, the k-th text sits right after its label, verbatim. */
  lemma SectionsEmbed(labels: seq<string>, texts: seq<string>, suffix: string, k: nat)
    requires |labels| == |texts| && k < |labels|
    ensures var p := Sections(labels, texts) + suffix; var i := SectionStart(labels, texts, k);
      && |labels[k]| <= i && i + |texts[k]| <= |p|
      && p[i - |labels[k]|..i] == labels[k]
      && p[i..i + |texts[k]|] == texts[k]
  {
    SectionsSplit(labels, texts, k);
    LabelledAt(Sections(labels[..k], texts[..k]), labels[k], texts[k],
      Sections(labels[k + 1..], texts[k + 1..]) + suffix);
  }

  /** The (k+1)-th text starts after the k-th text and the (k+1)-th label. */
  lemma SectionStartNext(labels: seq<string>, texts: seq<string>, k: nat)
    requires |labels| == |texts| && k + 1 < |labels|
    ensures SectionStart(labels, texts, k) + |texts[k]| + |labels[k + 1]| == SectionStart(labels, texts, k + 1)
  {
    var L, T := labels[..k + 1], texts[..k + 1];
    SectionsSplit(L, T, k);
    assert L[..k] == labels[..k] && T[..k] == texts[..k];
    assert L[k + 1..] == [] && T[k + 1..] == [];
  }

  /**
   * The referee prompt carries every one of the nine texts verbatim, right after its own label,
   * and in the fixed order: the k-th text ends before the (k+1)-th label begins.
   */
  lemma FusionPromptEmbeds(texts: seq<string>, k: nat)
    requires |texts| == |FusionLabels| && k < |FusionLabels|
    ensures var p := FusionPrompt(texts); var i := SectionStart(FusionLabels, texts, k);
      && |FusionLabels[k]| <= i && i + |texts[k]| <= |p|
      && p[i - |FusionLabels[k]|..i] == FusionLabels[k]
      && p[i..i + |texts[k]|] == texts[k]
    ensures k + 1 < |FusionLabels| ==>
      SectionStart(FusionLabels, texts, k) + |texts[k]| + |FusionLabels[k + 1]|
        == SectionStart(FusionLabels, texts, k + 1)
  {
    SectionsEmbed(FusionLabels, texts, "\n", k);
    if k + 1 < |FusionLabels| {
      SectionStartNext(FusionLabels, texts, k);
    }
  }

  /** After the last validation the referee prompt has one "\n" and then ends. */
  lemma FusionPromptEnd(texts: seq<string>)
    requires |texts| == |FusionLabels|
    ensures var p := FusionPrompt(texts); var k := |FusionLabels| - 1;
      && |p| == SectionStart(FusionLabels, texts, k) + |texts[k]| + 1
      && p[|p| - 1] == '\n'
  {
    SectionsLength(FusionLabels, texts);
  }

  /** Sections ends with its last text. */
  lemma SectionsLength(labels: seq<string>, texts: seq<string>)
    requires |labels| == |texts| && 0 < |labels|
    ensures |Sections(labels, texts)| == SectionStart(labels, texts, |labels| - 1) + |texts[|labels| - 1]|
  {
    var k := |labels| - 1;
    SectionsSplit(labels, texts, k);
    assert labels[k + 1..] == [] && texts[k + 1..] == [];
  }
}
