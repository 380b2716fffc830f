/**
 * The dashboard component's state and its generate action. `handleGenerate` runs in two halves
 * around its one `await`: BeginGenerate resets the view, sets the loading flag and issues the
 * request; FinishGenerate settles the view and the saved history from the outcome. The second half
 * works from what the first captured (topic, depth, interval and the history as it was then).
 */
module Dashboard {
  import opened Wrappers
  import opened Prompts
  import opened Providers
  import opened Orchestrator
  import opened Reports

  /** How the POST settled: a 2xx response and its body, or a rejection with the server's `error` field and the message. */
  datatype Fetch =
    | Received(data: Option<ApiData>)
    | Rejected(responseError: Option<string>, message: Option<string>)

  /** What the running generate captured when it started. */
  datatype Pending = Pending(topic: string, researchDepth: string, updateInterval: string, savedReports: seq<Report>)

  /** The request body the client posts for a topic and research depth. */
  function RequestFor(topic: string, researchDepth: string): RequestBody {
    RequestBody(Some(topic), Some(DetailLevelFor(researchDepth)))
  }

  /**
   * The server answers the client's request with the in-depth template exactly when the research
   * depth is "in-depth", and quotes the topic verbatim either way.
   */
  lemma RequestSelectsTemplate(topic: string, researchDepth: string)
    ensures var b := RequestFor(topic, researchDepth);
      IsInDepth(BuildPrompt(b.topic, b.detailLevel)) <==> researchDepth == "in-depth"
    ensures var b := RequestFor(topic, researchDepth);
      QuotedTopic(BuildPrompt(b.topic, b.detailLevel)) == Some(topic)
  {
  }

  /** The report a successful generate saves. */
  function NewReport(p: Pending, data: Option<ApiData>, now: string): (r: Report)
    ensures r.topic == p.topic && r.researchDepth == p.researchDepth && r.updateInterval == p.updateInterval
    ensures KeyOf(r) == Key(Text.Lower(p.topic), p.researchDepth, p.updateInterval)
    ensures r.summary == SummaryOf(data) && r.details == data && r.lastUpdated == now
  {
    Report(p.topic, SummaryOf(data), data, p.updateInterval, p.researchDepth, now)
  }

  const DefaultUpdateInterval: string := "daily"
  const DefaultResearchDepth: string := "highlevel"

  class Dashboard {
    var topic: string
    var updateInterval: string
    var researchDepth: string
    var summary: string
    var details: Option<ApiData>
    var loading: bool
    var savedReports: seq<Report>
    var error: string
    var showDetails: bool

    /** The initial state of every slot. */
    constructor()
      ensures topic == "" && updateInterval == DefaultUpdateInterval && researchDepth == DefaultResearchDepth
      ensures summary == "" && details == None && !loading && savedReports == [] && error == "" && !showDetails
    {
      topic := "";
      updateInterval := DefaultUpdateInterval;
      researchDepth := DefaultResearchDepth;
      summary := "";
      details := None;
      loading := false;
      savedReports := [];
      error := "";
      showDetails := false;
    }

    /** The first half of `handleGenerate`, up to the `await`. */
    method BeginGenerate() returns (p: Pending, request: RequestBody)
      modifies this
      ensures loading && error == "" && summary == "" && details == None && !showDetails
      ensures topic == old(topic) && researchDepth == old(researchDepth) && updateInterval == old(updateInterval)
      ensures savedReports == old(savedReports)
      ensures p == Pending(topic, researchDepth, updateInterval, savedReports)
      ensures request == RequestFor(topic, researchDepth)
    {
      loading := true;
      error := "";
      summary := "";
      details := None;
      showDetails := false;
      p := Pending(topic, researchDepth, updateInterval, savedReports);
      request := RequestFor(topic, researchDepth);
    }

    /**
     * The second half of `handleGenerate`. On a response: the summary chain's result is shown, the
     * body becomes the details, and the captured history is updated with the new report. On a
     * rejection: only the error chain's result is shown, and the history stays as it is. Either way
     * loading ends.
     */
    method FinishGenerate(p: Pending, fetch: Fetch, now: string)
      modifies this
      ensures !loading
      ensures topic == old(topic) && researchDepth == old(researchDepth) && updateInterval == old(updateInterval)
      ensures showDetails == old(showDetails)
      ensures fetch.Received? ==>
        && summary == SummaryOf(fetch.data)
        && details == fetch.data
        && savedReports == UpdateReports(p.savedReports, NewReport(p, fetch.data, now))
        && error == old(error)
      ensures fetch.Rejected? ==>
        && error == ErrorOf(fetch.responseError, fetch.message)
        && savedReports == old(savedReports)
        && summary == old(summary)
        && details == old(details)
    {
      if fetch.Received? {
        var report := NewReport(p, fetch.data, now);
        var saved := UpdateReports(p.savedReports, report);
        summary, details, savedReports := SummaryOf(fetch.data), fetch.data, saved;
      } else {
        error := ErrorOf(fetch.responseError, fetch.message);
      }
      loading := false;
    }

    /**
     * `handleGenerate` run to completion with no other event in between; `api` stands for the POST
     * to the server. The new state is determined by the request the current state makes.
     */
    method HandleGenerate(api: RequestBody -> Fetch, now: string)
      modifies this
      ensures !loading
      ensures topic == old(topic) && researchDepth == old(researchDepth) && updateInterval == old(updateInterval)
      ensures !showDetails
      ensures var fetch := api(RequestFor(old(topic), old(researchDepth)));
        && (fetch.Received? ==>
              && error == "" && summary == SummaryOf(fetch.data) && details == fetch.data
              && savedReports == UpdateReports(old(savedReports),
                   NewReport(Pending(topic, researchDepth, updateInterval, old(savedReports)), fetch.data, now)))
        && (fetch.Rejected? ==>
              && error == ErrorOf(fetch.responseError, fetch.message)
              && summary == "" && details == None
              && savedReports == old(savedReports))
    {
      var p, request := BeginGenerate();
      var fetch := api(request);
      FinishGenerate(p, fetch, now);
    }
  }

  // ---- The server's reply as the client receives it ----------------------------------------

  /**
   * The client's view of the server's reply: a composite arrives as a response body with the
   * summary and the fused details; an error status rejects, carrying the server's `error` field and
   * the rejection's own message.
   */
  function Deliver(reply: Reply, message: Option<string>): (f: Fetch)
    ensures f.Received? <==> reply.Composite?
  {
    match reply
    case Composite(s, o, p, g, vs) =>
      Received(Some(ApiData(Some(s), None, None, None, Some(o), Some(p), Some(g), Some(vs))))
    case ServerError(_, e) => Rejected(Some(e), message)
  }

  /** When generation fails on the server, the user sees the server's fixed error message. */
  lemma GenerationFailureShown(prompt: string, net: Network, message: Option<string>)
    requires Respond(prompt, net).ServerError?
    ensures var f := Deliver(Respond(prompt, net), message);
      f.Rejected? && ErrorOf(f.responseError, f.message) == GenerationError
  {
  }

  /**
   * On success the user sees the referee's summary, or the fixed fallback when that summary is
   * empty, and the full details panel; a failed referee call therefore shows its error text.
   */
  lemma CompositeSummaryShown(prompt: string, net: Network, message: Option<string>)
    requires Respond(prompt, net).Composite?
    ensures var r := Respond(prompt, net); var f := Deliver(r, message);
      && f.Received? && f.data.Some?
      && SummaryOf(f.data) == (if r.summary != "" then r.summary else NoSummary)
      && f.data.value.validations == Some(r.validations)
  {
  }
}
