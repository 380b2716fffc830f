/**
 * The `/api/generate-fused` handler: three generation calls joined fail-fast, six cross-validations
 * awaited one after the other, one referee call whose failure is caught where it happens, and the
 * composite response, or a 500 error when the generation phase throws.
 *
 * Handle and Calls are the reference definitions (the validations as one comprehension over the
 * ordered pairs); GenerateFused is the handler's own step-by-step control flow, proved equal to them.
 */
module Orchestrator {
  import opened Wrappers
  import opened Prompts
  import opened Providers
  import Text

  /** The body of the 500 response. */
  const GenerationError: string := "Failed to fetch insights from OpenAI, Perplexity, or Gemini"
  /** The summary when the referee call or its extraction fails. */
  const FusionError: string := "Error generating unified summary."

  /** `req.body`: its `topic` and `detailLevel` fields, each of which may be absent. */
  datatype RequestBody = RequestBody(topic: Option<string>, detailLevel: Option<string>)

  /** The providers in the order of the response's keys. */
  const Order: seq<Provider> := [OpenAI, Perplexity, Gemini]

  function Index(p: Provider): (i: nat)
    ensures i < |Order| && Order[i] == p
  {
    match p
    case OpenAI => 0
    case Perplexity => 1
    case Gemini => 2
  }

  /** One cross-validation: the provider whose output is reviewed, and the provider reviewing it. */
  datatype Pair = Pair(subject: Provider, critic: Provider)

  /**
   * The six cross-validations, in the order the handler awaits them and the response and the fusion
   * prompt list them: every ordered pair of distinct providers, each once, none reviewing itself.
   */
  function CritiquePairs(): (ps: seq<Pair>)
    ensures |ps| == 6
    ensures forall k :: 0 <= k < |ps| ==> ps[k].subject != ps[k].critic
  {
    [ Pair(OpenAI, Perplexity), Pair(OpenAI, Gemini),
      Pair(Perplexity, OpenAI), Pair(Perplexity, Gemini),
      Pair(Gemini, OpenAI), Pair(Gemini, Perplexity) ]
  }

  /** No pair is listed twice. */
  lemma CritiquePairsDistinct()
    ensures forall j, k :: 0 <= j < k < |CritiquePairs()| ==> CritiquePairs()[j] != CritiquePairs()[k]
  {
  }

  /** Every ordered pair of distinct providers is among the six. */
  lemma CritiquePairsComplete(s: Provider, c: Provider)
    requires s != c
    ensures Pair(s, c) in CritiquePairs()
  {
    var ps := CritiquePairs();
    match s
    case OpenAI => assert Pair(s, c) == (if c == Perplexity then ps[0] else ps[1]);
    case Perplexity => assert Pair(s, c) == (if c == OpenAI then ps[2] else ps[3]);
    case Gemini => assert Pair(s, c) == (if c == OpenAI then ps[4] else ps[5]);
  }

  /** The response's `validations` object, one field per ordered pair. */
  datatype Validations = Validations(
    openaiByPerplexity: string, openaiByGemini: string,
    perplexityByOpenai: string, perplexityByGemini: string,
    geminiByOpenai: string, geminiByPerplexity: string)
  {
    /** The six fields in the order of CritiquePairs. */
    function List(): (vs: seq<string>)
      ensures |vs| == |CritiquePairs()|
    {
      [openaiByPerplexity, openaiByGemini, perplexityByOpenai, perplexityByGemini,
       geminiByOpenai, geminiByPerplexity]
    }

    /** The field holding the validation of `p.subject` by `p.critic`. */
    function By(p: Pair): string
      requires p.subject != p.critic
    {
      match p
      case Pair(OpenAI, Perplexity) => openaiByPerplexity
      case Pair(OpenAI, Gemini) => openaiByGemini
      case Pair(Perplexity, OpenAI) => perplexityByOpenai
      case Pair(Perplexity, Gemini) => perplexityByGemini
      case Pair(Gemini, OpenAI) => geminiByOpenai
      case Pair(Gemini, Perplexity) => geminiByPerplexity
    }
  }

  /** The k-th listed validation is the field of the k-th pair. */
  lemma ListMatchesBy(v: Validations, k: nat)
    requires k < |CritiquePairs()|
    ensures v.List()[k] == v.By(CritiquePairs()[k])
  {
  }

  /** The validations object holding the six texts in the order of CritiquePairs. */
  function FromList(vs: seq<string>): (v: Validations)
    requires |vs| == |CritiquePairs()|
    ensures v.List() == vs
  {
    Validations(vs[0], vs[1], vs[2], vs[3], vs[4], vs[5])
  }

  /** The handler's answer: the composite JSON, or the 500 response. */
  datatype Reply =
    | Composite(summary: string, openai: string, perplexity: string, gemini: string,
                validations: Validations)
    | ServerError(status: nat, error: string)
  {
    /** The main output of one provider. */
    function Main(p: Provider): string
      requires Composite?
    {
      match p
      case OpenAI => openai
      case Perplexity => perplexity
      case Gemini => gemini
    }
  }

  function GenerationRequest(p: Provider, prompt: string): Request {
    Request(p, Generation, prompt)
  }

  /** The three generation calls, all issued before any of them is awaited. */
  function GenerationRequests(prompt: string): seq<Request> {
    [GenerationRequest(OpenAI, prompt), GenerationRequest(Perplexity, prompt), GenerationRequest(Gemini, prompt)]
  }

  /** The referee call: always OpenAI. */
  function FusionRequest(mergedPrompt: string): Request {
    Request(OpenAI, Fusion, mergedPrompt)
  }

  // ---- Reference definition of the handler ---------------------------------------------------

  /**
   * The generation phase: `Promise.all` over the three calls, then the extraction of the three main
   * outputs. None when the join rejects (any call fails) or an extraction throws.
   */
  function MainOutputs(prompt: string, net: Network): (r: Option<seq<string>>)
    ensures r.Some? ==> |r.value| == |Order|
    ensures r.Some? <==>
      && net(GenerationRequest(OpenAI, prompt)).Ok?
      && net(GenerationRequest(Perplexity, prompt)).Ok?
      && net(GenerationRequest(Gemini, prompt)).Ok?
      && ChatText(net(GenerationRequest(OpenAI, prompt))).Some?
      && ChatText(net(GenerationRequest(Perplexity, prompt))).Some?
      && GeminiGenerationText(net(GenerationRequest(Gemini, prompt)).body).Some?
    ensures r.Some? ==>
      && r.value[0] == ChatText(net(GenerationRequest(OpenAI, prompt))).value
      && r.value[1] == ChatText(net(GenerationRequest(Perplexity, prompt))).value
      && r.value[2] == GeminiGenerationText(net(GenerationRequest(Gemini, prompt)).body).value
  {
    var o := net(GenerationRequest(OpenAI, prompt));
    var p := net(GenerationRequest(Perplexity, prompt));
    var g := net(GenerationRequest(Gemini, prompt));
    if o.Fail? || p.Fail? || g.Fail? then None
    else
      match (ChatText(o), ChatText(p), GeminiGenerationText(g.body))
      case (Some(a), Some(b), Some(c)) => Some([a, b, c])
      case _ => None
  }

  /** The critique of the pair's subject output by its critic, given the three main outputs. */
  function CritiqueOf(pr: Pair, texts: seq<string>, net: Network): string
    requires |texts| == |Order|
  {
    Validate(pr.critic, texts[Index(pr.critic)], texts[Index(pr.subject)], net)
  }

  /** The call that critique makes. */
  function CritiqueCall(pr: Pair, texts: seq<string>): Request
    requires |texts| == |Order|
  {
    CritiqueRequest(pr.critic, texts[Index(pr.subject)])
  }

  /** The six critiques over the three main outputs, in the order of CritiquePairs. */
  function CrossValidations(texts: seq<string>, net: Network): (vs: seq<string>)
    requires |texts| == |Order|
    ensures |vs| == |CritiquePairs()|
    ensures forall k :: 0 <= k < |CritiquePairs()| ==> vs[k] == CritiqueOf(CritiquePairs()[k], texts, net)
  {
    seq(|CritiquePairs()|, k requires 0 <= k < |CritiquePairs()| => CritiqueOf(CritiquePairs()[k], texts, net))
  }

  /** The six critique calls, in the order of CritiquePairs. */
  function CritiqueRequests(texts: seq<string>): (rs: seq<Request>)
    requires |texts| == |Order|
    ensures |rs| == |CritiquePairs()|
    ensures forall k :: 0 <= k < |CritiquePairs()| ==> rs[k] == CritiqueCall(CritiquePairs()[k], texts)
  {
    var ps := CritiquePairs();
    [CritiqueCall(ps[0], texts), CritiqueCall(ps[1], texts), CritiqueCall(ps[2], texts),
     CritiqueCall(ps[3], texts), CritiqueCall(ps[4], texts), CritiqueCall(ps[5], texts)]
  }

  /** The summary: the referee's trimmed reply, or the fixed error text (the local catch). */
  function FusedSummary(o: Outcome): (r: string)
    ensures o.Ok? && FirstContent(o.body).Some? ==> r == Text.Trim(FirstContent(o.body).value)
    ensures !(o.Ok? && FirstContent(o.body).Some?) ==> r == FusionError
  {
    ChatText(o).GetOr(FusionError)
  }

  /** The response once the generation phase has produced the three main outputs. */
  function Assemble(texts: seq<string>, net: Network): (r: Reply)
    requires |texts| == |Order|
  {
    var v := FromList(CrossValidations(texts, net));
    Composite(FusedSummary(net(FusionRequest(FusionPrompt(texts + v.List())))),
              texts[0], texts[1], texts[2], v)
  }

  /** The calls made after the generation phase: the six critiques, then the referee. */
  function AssembleCalls(texts: seq<string>, net: Network): seq<Request>
    requires |texts| == |Order|
  {
    CritiqueRequests(texts) + [FusionRequest(FusionPrompt(texts + FromList(CrossValidations(texts, net)).List()))]
  }

  /** What the handler answers once it has built `prompt`; its only error is the fixed 500. */
  function Respond(prompt: string, net: Network): (r: Reply)
    ensures r.ServerError? ==> r == ServerError(500, GenerationError)
  {
    match MainOutputs(prompt, net)
    case None => ServerError(500, GenerationError)
    case Some(texts) => Assemble(texts, net)
  }

  /** The calls the handler makes once it has built `prompt`, in the order it makes them. */
  function RespondCalls(prompt: string, net: Network): seq<Request> {
    match MainOutputs(prompt, net)
    case None => GenerationRequests(prompt)
    case Some(texts) => GenerationRequests(prompt) + AssembleCalls(texts, net)
  }

  /** What the handler answers to `body` when the providers behave as `net`. */
  function Handle(body: RequestBody, net: Network): Reply {
    Respond(BuildPrompt(body.topic, body.detailLevel), net)
  }

  /** The calls the handler makes for `body`. */
  function Calls(body: RequestBody, net: Network): seq<Request> {
    RespondCalls(BuildPrompt(body.topic, body.detailLevel), net)
  }

  // ---- The handler ---------------------------------------------------------------------------

  /** The six critiques, written out as the handler's six helper calls, in its order. */
  lemma CrossValidationsUnfold(texts: seq<string>, net: Network)
    requires |texts| == |Order|
    ensures FromList(CrossValidations(texts, net)) == Validations(
      ValidateWithPerplexity(texts[1], texts[0], net), ValidateWithGemini(texts[2], texts[0], net),
      ValidateWithOpenAI(texts[0], texts[1], net), ValidateWithGemini(texts[2], texts[1], net),
      ValidateWithOpenAI(texts[0], texts[2], net), ValidateWithPerplexity(texts[1], texts[2], net))
  {
  }

  /** The six critique calls, written out in the handler's order. */
  lemma CritiqueRequestsUnfold(texts: seq<string>)
    requires |texts| == |Order|
    ensures CritiqueRequests(texts) == [
      CritiqueRequest(Perplexity, texts[0]), CritiqueRequest(Gemini, texts[0]),
      CritiqueRequest(OpenAI, texts[1]), CritiqueRequest(Gemini, texts[1]),
      CritiqueRequest(OpenAI, texts[2]), CritiqueRequest(Perplexity, texts[2])]
  {
  }

  /**
   * The generation phase of the handler: it issues the three generation calls, joins them and
   * extracts the three texts. None stands for the rejection or throw that ends in the 500 response.
   */
  method RunGenerations(prompt: string, net: Network) returns (texts: Option<seq<string>>, calls: seq<Request>)
    ensures texts == MainOutputs(prompt, net)
    ensures calls == GenerationRequests(prompt)
  {
    var openaiResult := net(GenerationRequest(OpenAI, prompt));
    var perplexityResult := net(GenerationRequest(Perplexity, prompt));
    var geminiResult := net(GenerationRequest(Gemini, prompt));
    calls := GenerationRequests(prompt);
    if openaiResult.Fail? || perplexityResult.Fail? || geminiResult.Fail? {
      return None, calls;
    }
    var openaiOut := ChatText(openaiResult);
    if openaiOut.None? {
      return None, calls;
    }
    var perplexityOut := ChatText(perplexityResult);
    if perplexityOut.None? {
      return None, calls;
    }
    var geminiText := "";
    match GeminiExtract(geminiResult.body) {
      case Extracted(t) =>
        geminiText := t;
      case NoParts =>
        geminiText := NoGeminiOutput;
      case Threw =>
        return None, calls;
    }
    texts := Some([openaiOut.value, perplexityOut.value, geminiText]);
  }

  /**
   * The rest of the handler: it awaits the six critiques in sequence, calls the referee inside its
   * own try/catch and assembles the response.
   */
  method RunCritiquesAndFusion(texts: seq<string>, net: Network) returns (reply: Reply, calls: seq<Request>)
    requires |texts| == |Order|
    ensures reply == Assemble(texts, net)
    ensures calls == AssembleCalls(texts, net)
  {
    var openaiText, perplexityText, geminiText := texts[0], texts[1], texts[2];
    var openaiByPerplexity := ValidateWithPerplexity(perplexityText, openaiText, net);
    var openaiByGemini := ValidateWithGemini(geminiText, openaiText, net);
    var perplexityByOpenai := ValidateWithOpenAI(openaiText, perplexityText, net);
    var perplexityByGemini := ValidateWithGemini(geminiText, perplexityText, net);
    var geminiByOpenai := ValidateWithOpenAI(openaiText, geminiText, net);
    var geminiByPerplexity := ValidateWithPerplexity(perplexityText, geminiText, net);
    calls := [
      CritiqueRequest(Perplexity, openaiText), CritiqueRequest(Gemini, openaiText),
      CritiqueRequest(OpenAI, perplexityText), CritiqueRequest(Gemini, perplexityText),
      CritiqueRequest(OpenAI, geminiText), CritiqueRequest(Perplexity, geminiText)];

    var validations := Validations(openaiByPerplexity, openaiByGemini, perplexityByOpenai,
                                   perplexityByGemini, geminiByOpenai, geminiByPerplexity);
    CrossValidationsUnfold(texts, net);
    assert validations == FromList(CrossValidations(texts, net));
    var mergedPrompt := FusionPrompt(texts + validations.List());
    var finalSummary := "";
    var merged := net(FusionRequest(mergedPrompt));
    calls := calls + [FusionRequest(mergedPrompt)];
    match ChatText(merged) {
      case Some(t) => finalSummary := t;
      case None => finalSummary := FusionError;
    }
    reply := Composite(finalSummary, openaiText, perplexityText, geminiText, validations);
    CritiqueRequestsUnfold(texts);
  }

  /**
   * The handler: it builds the prompt, runs the generation phase, answers 500 when that phase ends
   * in a rejection or throw, and otherwise runs the critiques and the fusion. `calls` records every
   * call in the order it is made.
   */
  method GenerateFused(body: RequestBody, net: Network) returns (reply: Reply, calls: seq<Request>)
    ensures reply == Handle(body, net)
    ensures calls == Calls(body, net)
  {
    var prompt := BuildPrompt(body.topic, body.detailLevel);
    var texts;
    texts, calls := RunGenerations(prompt, net);
    if texts.None? {
      reply := ServerError(500, GenerationError);
      return;
    }
    var more;
    reply, more := RunCritiquesAndFusion(texts.value, net);
    calls := calls + more;
  }

  // ---- What the handler promises -----------------------------------------------------------

  /**
   * The handler answers 500 with the fixed message exactly when a generation call is rejected or the
   * extraction right after the join throws; it then makes no call beyond the three generation calls.
   */
  lemma ServerErrorIff(prompt: string, net: Network)
    ensures var o := net(GenerationRequest(OpenAI, prompt));
      var p := net(GenerationRequest(Perplexity, prompt));
      var g := net(GenerationRequest(Gemini, prompt));
      Respond(prompt, net).ServerError? <==>
        ChatText(o).None? || ChatText(p).None? || g.Fail? || GeminiExtract(g.body).Threw?
    ensures Respond(prompt, net).ServerError? ==>
      && Respond(prompt, net) == ServerError(500, GenerationError)
      && RespondCalls(prompt, net) == GenerationRequests(prompt)
  {
  }

  /** On success the handler answers with the response assembled from the three extracted outputs. */
  lemma CompositeFromMainOutputs(prompt: string, net: Network)
    requires Respond(prompt, net).Composite?
    ensures MainOutputs(prompt, net).Some?
    ensures Respond(prompt, net) == Assemble(MainOutputs(prompt, net).value, net)
    ensures RespondCalls(prompt, net)
      == GenerationRequests(prompt) + AssembleCalls(MainOutputs(prompt, net).value, net)
  {
  }

  /**
   * The assembled response carries the three main outputs unchanged, for every ordered pair of
   * distinct providers the critic's critique of the subject's output, and the referee's reply to
   * the fusion prompt over those nine texts (or the fixed error text).
   */
  lemma AssembleContents(texts: seq<string>, net: Network)
    requires |texts| == |Order|
    ensures var r := Assemble(texts, net);
      r.Composite? && forall p: Provider :: r.Main(p) == texts[Index(p)]
    ensures var r := Assemble(texts, net);
      forall s: Provider, c: Provider :: s != c ==>
        r.validations.By(Pair(s, c)) == Validate(c, texts[Index(c)], texts[Index(s)], net)
    ensures var r := Assemble(texts, net);
      r.summary == FusedSummary(net(FusionRequest(FusionPrompt(texts + r.validations.List()))))
  {
    var r := Assemble(texts, net);
    forall s: Provider, c: Provider | s != c
      ensures r.validations.By(Pair(s, c)) == Validate(c, texts[Index(c)], texts[Index(s)], net)
    {
      CritiquePairsComplete(s, c);
      var k :| 0 <= k < |CritiquePairs()| && CritiquePairs()[k] == Pair(s, c);
      ListMatchesBy(r.validations, k);
    }
  }

  /**
   * After the generation phase the handler makes seven calls: the k-th sends the k-th pair's subject
   * output to its critic, and the last one asks the referee about the nine texts.
   */
  lemma AssembleCallsInOrder(texts: seq<string>, net: Network)
    requires |texts| == |Order|
    ensures var calls := AssembleCalls(texts, net);
      && |calls| == |CritiquePairs()| + 1
      && (forall k :: 0 <= k < |CritiquePairs()| ==>
            calls[k] == CritiqueRequest(CritiquePairs()[k].critic, texts[Index(CritiquePairs()[k].subject)]))
      && calls[|CritiquePairs()|]
           == FusionRequest(FusionPrompt(texts + Assemble(texts, net).validations.List()))
  {
  }

  /** How many of the calls have the given role. */
  function CountRole(calls: seq<Request>, role: Role): (n: nat)
    ensures n <= |calls|
  {
    if calls == [] then 0
    else (if calls[0].role == role then 1 else 0) + CountRole(calls[1..], role)
  }

  lemma {:induction false} CountRoleAppend(a: seq<Request>, b: seq<Request>, role: Role)
    ensures CountRole(a + b, role) == CountRole(a, role) + CountRole(b, role)
  {
    if a == [] {
      assert a + b == b;
    } else {
      assert (a + b)[1..] == a[1..] + b;
      CountRoleAppend(a[1..], b, role);
    }
  }

  /** A sequence of calls none of which has the role counts zero of them. */
  lemma {:induction false} CountRoleNone(calls: seq<Request>, role: Role)
    requires forall k :: 0 <= k < |calls| ==> calls[k].role != role
    ensures CountRole(calls, role) == 0
  {
    if calls != [] {
      CountRoleNone(calls[1..], role);
    }
  }

  /** A sequence of calls all of which have the role counts all of them. */
  lemma {:induction false} CountRoleAll(calls: seq<Request>, role: Role)
    requires forall k :: 0 <= k < |calls| ==> calls[k].role == role
    ensures CountRole(calls, role) == |calls|
  {
    if calls != [] {
      CountRoleAll(calls[1..], role);
    }
  }

  /** The calls after the generation phase: six critiques and one referee call. */
  lemma AssembleCallsRoles(texts: seq<string>, net: Network)
    requires |texts| == |Order|
    ensures CountRole(AssembleCalls(texts, net), Fusion) == 1
    ensures CountRole(AssembleCalls(texts, net), Validation) == 6
    ensures CountRole(AssembleCalls(texts, net), Generation) == 0
  {
    var crit := CritiqueRequests(texts);
    var fus := [FusionRequest(FusionPrompt(texts + FromList(CrossValidations(texts, net)).List()))];
    CountRoleAll(crit, Validation);
    CountRoleNone(crit, Fusion);
    CountRoleNone(crit, Generation);
    CountRoleAll(fus, Fusion);
    CountRoleNone(fus, Validation);
    CountRoleNone(fus, Generation);
    CountRoleAppend(crit, fus, Fusion);
    CountRoleAppend(crit, fus, Validation);
    CountRoleAppend(crit, fus, Generation);
  }

  /**
   * The referee is called exactly once per successful request and never after a failed one; the six
   * critique calls are made exactly on success; the three generation calls always.
   */
  lemma RefereeCalledOnce(prompt: string, net: Network)
    ensures CountRole(RespondCalls(prompt, net), Fusion) == (if Respond(prompt, net).Composite? then 1 else 0)
    ensures CountRole(RespondCalls(prompt, net), Validation) == (if Respond(prompt, net).Composite? then 6 else 0)
    ensures CountRole(RespondCalls(prompt, net), Generation) == 3
  {
    var gen := GenerationRequests(prompt);
    CountRoleAll(gen, Generation);
    CountRoleNone(gen, Fusion);
    CountRoleNone(gen, Validation);
    match MainOutputs(prompt, net)
    case None =>
      assert RespondCalls(prompt, net) == gen && Respond(prompt, net).ServerError?;
    case Some(texts) =>
      var rest := AssembleCalls(texts, net);
      assert RespondCalls(prompt, net) == gen + rest && Respond(prompt, net).Composite?;
      AssembleCallsRoles(texts, net);
      CountRoleAppend(gen, rest, Fusion);
      CountRoleAppend(gen, rest, Validation);
      CountRoleAppend(gen, rest, Generation);
  }

  /** The generation phase reads only generation calls. */
  lemma MainOutputsReadGenerationOnly(prompt: string, net1: Network, net2: Network)
    requires forall q: Request :: q.role == Generation ==> net1(q) == net2(q)
    ensures MainOutputs(prompt, net1) == MainOutputs(prompt, net2)
  {
    assert net1(GenerationRequest(OpenAI, prompt)) == net2(GenerationRequest(OpenAI, prompt));
    assert net1(GenerationRequest(Perplexity, prompt)) == net2(GenerationRequest(Perplexity, prompt));
    assert net1(GenerationRequest(Gemini, prompt)) == net2(GenerationRequest(Gemini, prompt));
  }

  /**
   * Only the generation calls decide whether the request fails and what the three main outputs are:
   * no critique or referee reply, failed or not, can turn a success into the 500 response or back.
   */
  lemma OnlyGenerationCanFail(prompt: string, net1: Network, net2: Network)
    requires forall q: Request :: q.role == Generation ==> net1(q) == net2(q)
    ensures Respond(prompt, net1).ServerError? == Respond(prompt, net2).ServerError?
    ensures Respond(prompt, net1).Composite? ==>
      var r1, r2 := Respond(prompt, net1), Respond(prompt, net2);
      r1.openai == r2.openai && r1.perplexity == r2.perplexity && r1.gemini == r2.gemini
  {
    MainOutputsReadGenerationOnly(prompt, net1, net2);
  }

  /** A critique is decided by its own call alone. */
  lemma CritiqueOfReadsItsCall(pr: Pair, texts: seq<string>, net1: Network, net2: Network)
    requires |texts| == |Order|
    requires net1(CritiqueCall(pr, texts)) == net2(CritiqueCall(pr, texts))
    ensures CritiqueOf(pr, texts, net1) == CritiqueOf(pr, texts, net2)
  {
    ValidateDependsOnlyOnItsCall(pr.critic, texts[Index(pr.critic)], texts[Index(pr.critic)],
                                 texts[Index(pr.subject)], net1, net2);
  }

  /**
   * A failing referee call costs the summary and nothing else: the request still succeeds or fails
   * as before, and a composite keeps all three main outputs and all six validations, with the fixed
   * error text as its summary.
   */
  lemma FusionFailureIsLocal(prompt: string, net: Network, net': Network)
    requires forall q: Request :: net'(q) == (if q.role == Fusion then Fail else net(q))
    ensures Respond(prompt, net').ServerError? == Respond(prompt, net).ServerError?
    ensures Respond(prompt, net).Composite? ==>
      Respond(prompt, net') == Respond(prompt, net).(summary := FusionError)
  {
    MainOutputsReadGenerationOnly(prompt, net, net');
    if MainOutputs(prompt, net).Some? {
      AssembleWithoutReferee(MainOutputs(prompt, net).value, net, net');
    }
  }

  lemma AssembleWithoutReferee(texts: seq<string>, net: Network, net': Network)
    requires |texts| == |Order|
    requires forall q: Request :: net'(q) == (if q.role == Fusion then Fail else net(q))
    ensures Assemble(texts, net').Composite? && Assemble(texts, net).Composite?
    ensures Assemble(texts, net') == Assemble(texts, net).(summary := FusionError)
  {
    var vs, vs' := CrossValidations(texts, net), CrossValidations(texts, net');
    forall k | 0 <= k < |CritiquePairs()| ensures vs'[k] == vs[k] {
      CritiqueOfReadsItsCall(CritiquePairs()[k], texts, net, net');
    }
    assert vs' == vs;
  }

  /** A critique whose own call fails is its critic's placeholder; any other critique is unaffected. */
  lemma CritiqueOfUnderFailure(pr: Pair, texts: seq<string>, net: Network, net': Network, failed: Request)
    requires |texts| == |Order|
    requires forall q: Request :: net'(q) == (if q == failed then Fail else net(q))
    ensures CritiqueOf(pr, texts, net')
      == if CritiqueCall(pr, texts) == failed then Unavailable(pr.critic) else CritiqueOf(pr, texts, net)
  {
    if CritiqueCall(pr, texts) == failed {
      assert net'(CritiqueCall(pr, texts)).Fail?;
    } else {
      CritiqueOfReadsItsCall(pr, texts, net, net');
    }
  }

  /**
   * A failing critique call costs only the critiques that make that very call: each of them becomes
   * its critic's placeholder; every other critique and all three main outputs stay as they were.
   */
  lemma CritiqueFailureIsLocal(texts: seq<string>, net: Network, net': Network, failed: Request)
    requires |texts| == |Order|
    requires forall q: Request :: net'(q) == (if q == failed then Fail else net(q))
    ensures var r, r' := Assemble(texts, net), Assemble(texts, net');
      && r'.openai == r.openai && r'.perplexity == r.perplexity && r'.gemini == r.gemini
      && forall k :: 0 <= k < |CritiquePairs()| ==>
           r'.validations.List()[k]
             == if CritiqueCall(CritiquePairs()[k], texts) == failed then Unavailable(CritiquePairs()[k].critic)
                else r.validations.List()[k]
  {
    var vs, vs' := CrossValidations(texts, net), CrossValidations(texts, net');
    assert Assemble(texts, net).validations.List() == vs;
    assert Assemble(texts, net').validations.List() == vs';
    forall k | 0 <= k < |CritiquePairs()|
      ensures vs'[k] == if CritiqueCall(CritiquePairs()[k], texts) == failed then Unavailable(CritiquePairs()[k].critic)
                        else vs[k]
    {
      CritiqueOfUnderFailure(CritiquePairs()[k], texts, net, net', failed);
    }
  }
}
