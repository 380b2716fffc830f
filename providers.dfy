/**
 * The three text-generation providers as the server sees them: the requests it sends, the response
 * envelopes it probes, the text it extracts from them, and the three critique helpers
 * (`validateWithOpenAI`, `validateWithPerplexity`, `validateWithGemini`).
 */
module Providers {
  import opened Wrappers
  import opened Text
  import opened Prompts

  datatype Provider = OpenAI | Perplexity | Gemini

  /** What a call is for: it selects the system prompt, the temperature and the output budget. */
  datatype Role = Generation | Validation | Fusion

  /** One outbound call: the provider addressed, its role and the user prompt it carries. */
  datatype Request = Request(provider: Provider, role: Role, prompt: string)

  /**
   * Sampling temperature in tenths; Gemini requests set none, and only OpenAI is ever the referee,
   * so there is no Perplexity referee request to set one on.
   */
  function TemperatureTenths(provider: Provider, role: Role): (t: Option<nat>)
    ensures t.None? <==> provider == Gemini || (provider == Perplexity && role == Fusion)
  {
    match (provider, role)
    case (Gemini, _) => None
    case (Perplexity, Fusion) => None
    case (_, Generation) => Some(5)
    case (_, Validation) => Some(4)
    case (_, Fusion) => Some(3)
  }

  /** Output budget in tokens; as for the temperature, Gemini and a Perplexity referee set none. */
  function MaxTokens(provider: Provider, role: Role): (n: Option<nat>)
    ensures n.None? <==> provider == Gemini || (provider == Perplexity && role == Fusion)
  {
    match (provider, role)
    case (Gemini, _) => None
    case (Perplexity, Fusion) => None
    case (_, Generation) => Some(1200)
    case (_, Validation) => Some(700)
    case (_, Fusion) => Some(1500)
  }

  /** Critique calls get the smallest output budget, the referee call the largest. */
  lemma BudgetsByRole(provider: Provider)
    requires provider != Gemini
    ensures MaxTokens(provider, Validation).value < MaxTokens(provider, Generation).value
    ensures MaxTokens(OpenAI, Generation).value < MaxTokens(OpenAI, Fusion).value
  {
  }

  /** Critique calls sample cooler than first-pass generation, and the referee call cooler still. */
  lemma ReviewSamplesCooler(provider: Provider)
    requires provider != Gemini
    ensures TemperatureTenths(provider, Validation).value < TemperatureTenths(provider, Generation).value
    ensures TemperatureTenths(OpenAI, Fusion).value < TemperatureTenths(OpenAI, Validation).value
  {
  }

  // ---- Response envelopes (absent JSON fields are None) -------------------------------------

  datatype Message = Message(content: Option<string>)
  datatype Choice = Choice(message: Option<Message>)
  /** One element of Gemini's `parts`; NullPart is a `null` element, on which `p.text` throws. */
  datatype Part = Part(text: Option<string>) | NullPart
  datatype Content = Content(parts: Option<seq<Part>>)
  datatype Candidate = Candidate(content: Option<Content>)

  /** The `data` of a response: the chat-completions shape, the generate-content shape, or neither. */
  datatype Body =
    | ChatCompletion(choices: Option<seq<Choice>>)
    | GenerateContent(candidates: Option<seq<Candidate>>)
    | NoData

  /** The settled call: a 2xx response, or a rejection (network failure, non-2xx status). */
  datatype Outcome = Ok(body: Body) | Fail

  /** The providers' behaviour: what each request comes back with. */
  type Network = Request -> Outcome

  // ---- Text extraction -------------------------------------------------------------------

  /** `data.choices[0].message.content`, where each step of that path exists. */
  function FirstContent(b: Body): (r: Option<string>)
    ensures r.Some? <==>
      && b.ChatCompletion? && b.choices.Some? && |b.choices.value| > 0
      && b.choices.value[0].message.Some? && b.choices.value[0].message.value.content.Some?
    ensures r.Some? ==> r.value == b.choices.value[0].message.value.content.value
  {
    if b.ChatCompletion? && b.choices.Some? && |b.choices.value| > 0 then
      match b.choices.value[0].message
      case Some(m) => m.content
      case None => None
    else None
  }

  /**
   * `data.choices[0].message.content.trim()` on a settled call. None stands for a rejected call or
   * for the TypeError the expression throws when a step of the path is missing.
   */
  function ChatText(o: Outcome): (r: Option<string>)
    ensures r.Some? <==> o.Ok? && FirstContent(o.body).Some?
    ensures r.Some? ==> r.value == Trim(FirstContent(o.body).value)
  {
    if o.Ok? then
      match FirstContent(o.body)
      case Some(c) => Some(Trim(c))
      case None => None
    else None
  }

  /** `candidates[0].content.parts` when the guard `data && data.candidates && ….parts?.length` holds. */
  function GeminiParts(b: Body): (r: Option<seq<Part>>)
    ensures r.Some? ==> |r.value| > 0
  {
    if b.GenerateContent? && b.candidates.Some? && |b.candidates.value| > 0 then
      match b.candidates.value[0].content
      case Some(c) => (
        match c.parts
        case Some(ps) => if |ps| > 0 then Some(ps) else None
        case None => None)
      case None => None
    else None
  }

  /** What `join` makes of `p.text`: an absent text joins as the empty string. */
  function PartText(p: Part): string
    requires p.Part?
  {
    p.text.GetOr("")
  }

  /** The texts of the parts, in order (`parts.map(p => p.text)`). */
  function PartTexts(parts: seq<Part>): (r: seq<string>)
    requires forall i :: 0 <= i < |parts| ==> parts[i].Part?
    ensures |r| == |parts|
    ensures forall i :: 0 <= i < |parts| ==> r[i] == PartText(parts[i])
  {
    seq(|parts|, i requires 0 <= i < |parts| => PartText(parts[i]))
  }

  /** How the Gemini extraction ends: with a text, with no parts to join, or with a throw. */
  datatype Extraction = Extracted(text: string) | NoParts | Threw

  /**
   * Gemini extraction: the parts' texts joined with "\n" and trimmed when the first candidate has a
   * non-empty `parts`; NoParts when it has none; Threw when a part is `null`.
   */
  function GeminiExtract(b: Body): (r: Extraction)
    ensures r.NoParts? <==> GeminiParts(b).None?
    ensures r.Threw? <==> GeminiParts(b).Some? && exists i :: 0 <= i < |GeminiParts(b).value| && GeminiParts(b).value[i].NullPart?
    ensures r.Extracted? ==> r.text == Trim(Join(PartTexts(GeminiParts(b).value), "\n"))
  {
    match GeminiParts(b)
    case None => NoParts
    case Some(ps) =>
      if exists i :: 0 <= i < |ps| && ps[i].NullPart? then Threw
      else Extracted(Trim(Join(PartTexts(ps), "\n")))
  }

  /** The generation-phase placeholder for a Gemini response without parts. */
  const NoGeminiOutput: string := "(No Gemini output)"

  /**
   * The Gemini main output (server/index.js, after the join): the extracted text, or the fixed
   * placeholder when the response has no parts; None when the extraction throws.
   */
  function GeminiGenerationText(b: Body): (r: Option<string>)
    ensures GeminiParts(b).None? ==> r == Some(NoGeminiOutput)
    ensures GeminiExtract(b).Extracted? ==> r == Some(GeminiExtract(b).text)
    ensures r.None? <==> GeminiExtract(b).Threw?
  {
    match GeminiExtract(b)
    case Extracted(t) => Some(t)
    case NoParts => Some(NoGeminiOutput)
    case Threw => None
  }

  // ---- Critique helpers ------------------------------------------------------------------

  const OpenAIUnavailable: string := "(Validation unavailable from OpenAI.)"
  const PerplexityUnavailable: string := "(Validation unavailable from Perplexity.)"
  const GeminiUnavailable: string := "(Validation unavailable from Gemini.)"

  /** The placeholder each critique helper returns when its call or its extraction fails. */
  function Unavailable(critic: Provider): string {
    match critic
    case OpenAI => OpenAIUnavailable
    case Perplexity => PerplexityUnavailable
    case Gemini => GeminiUnavailable
  }

  /** The call a critique helper makes: the critic, asked to review the target text. */
  function CritiqueRequest(critic: Provider, targetText: string): Request {
    Request(critic, Validation, CritiquePrompt(targetText))
  }

  /**
   * `validateWithOpenAI`: the critic's trimmed reply, or its placeholder when the call is rejected or
   * the reply lacks `choices[0].message.content` (every throw is caught). The first argument is unused.
   */
  function ValidateWithOpenAI(openaiText: string, targetText: string, net: Network): (r: string)
    ensures var o := net(CritiqueRequest(OpenAI, targetText));
      && (ChatText(o).None? ==> r == Unavailable(OpenAI))
      && (ChatText(o).Some? ==> r == ChatText(o).value)
  {
    match ChatText(net(CritiqueRequest(OpenAI, targetText)))
    case Some(t) => t
    case None => Unavailable(OpenAI)
  }

  /** `validateWithPerplexity`: as ValidateWithOpenAI, against Perplexity and with its placeholder. */
  function ValidateWithPerplexity(perplexityText: string, targetText: string, net: Network): (r: string)
    ensures var o := net(CritiqueRequest(Perplexity, targetText));
      && (ChatText(o).None? ==> r == Unavailable(Perplexity))
      && (ChatText(o).Some? ==> r == ChatText(o).value)
  {
    match ChatText(net(CritiqueRequest(Perplexity, targetText)))
    case Some(t) => t
    case None => Unavailable(Perplexity)
  }

  /**
   * `validateWithGemini`: the joined, trimmed parts of the reply; the placeholder when the call is
   * rejected, when the reply has no parts, and when the extraction throws.
   */
  function ValidateWithGemini(geminiText: string, targetText: string, net: Network): (r: string)
    ensures var o := net(CritiqueRequest(Gemini, targetText));
      && (o.Fail? || !GeminiExtract(o.body).Extracted? ==> r == Unavailable(Gemini))
      && (o.Ok? && GeminiExtract(o.body).Extracted? ==> r == GeminiExtract(o.body).text)
  {
    match net(CritiqueRequest(Gemini, targetText))
    case Fail => Unavailable(Gemini)
    case Ok(b) =>
      match GeminiExtract(b)
      case Extracted(t) => t
      case _ => Unavailable(Gemini)
  }

  /** The critique helper of each critic, called as the handler calls it. */
  function Validate(critic: Provider, criticText: string, targetText: string, net: Network): string {
    match critic
    case OpenAI => ValidateWithOpenAI(criticText, targetText, net)
    case Perplexity => ValidateWithPerplexity(criticText, targetText, net)
    case Gemini => ValidateWithGemini(criticText, targetText, net)
  }

  /**
   * A critique is decided by the critic's reply to the critique prompt about the target and by
   * nothing else: not by the critic's own text, and not by any other call.
   */
  lemma ValidateDependsOnlyOnItsCall(critic: Provider, a: string, b: string, targetText: string,
                                     net1: Network, net2: Network)
    requires net1(CritiqueRequest(critic, targetText)) == net2(CritiqueRequest(critic, targetText))
    ensures Validate(critic, a, targetText, net1) == Validate(critic, b, targetText, net2)
  {
  }

  /**
   * A critique is the critic's reply to its critique call, extracted as the helper extracts it, or
   * that critic's placeholder, never anything else; either way it is trimmed.
   */
  lemma ValidateIsReplyOrPlaceholder(critic: Provider, criticText: string, targetText: string, net: Network)
    ensures var r := Validate(critic, criticText, targetText, net);
      var o := net(CritiqueRequest(critic, targetText));
      && (critic != Gemini ==> r == Unavailable(critic) || ChatText(o) == Some(r))
      && (critic == Gemini ==> r == Unavailable(Gemini) || (o.Ok? && GeminiExtract(o.body) == Extracted(r)))
      && IsTrimmed(r)
  {
  }
}
