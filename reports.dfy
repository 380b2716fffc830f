/**
 * The client's pure selection rules: the detail level sent for a research depth, the summary and
 * error fallback chains, the visibility of a report section, and the update of the saved-report
 * history, which replaces any report with the same key and appends the new one.
 */
module Reports {
  import opened Wrappers
  import opened Text
  import opened Orchestrator

  // ---- What the client receives ----------------------------------------------------------

  /**
   * The JSON body of a successful response, as far as the client reads it: the four fields the
   * summary chain probes, and the fused details the server sends. An absent field is None.
   */
  datatype ApiData = ApiData(
    summary: Option<string>,
    insights: Option<string>,
    result: Option<string>,
    text: Option<string>,
    openai: Option<string>,
    perplexity: Option<string>,
    gemini: Option<string>,
    validations: Option<Validations>)

  /** A string operand of `||` is truthy when it is present and not empty. */
  predicate Truthy(s: Option<string>) {
    s.Some? && s.value != ""
  }

  /**
   * `a || b || … || fallback` over optional strings: the first truthy candidate, or the fallback when
   * there is none.
   */
  function FirstTruthy(candidates: seq<Option<string>>, fallback: string): (r: string)
    ensures (forall i :: 0 <= i < |candidates| ==> !Truthy(candidates[i])) ==> r == fallback
    ensures forall i :: (0 <= i < |candidates| && Truthy(candidates[i])
      && (forall j :: 0 <= j < i ==> !Truthy(candidates[j]))) ==> r == candidates[i].value
    ensures r == fallback || exists i :: 0 <= i < |candidates| && Truthy(candidates[i]) && r == candidates[i].value
  {
    if candidates == [] then fallback
    else if Truthy(candidates[0]) then candidates[0].value
    else
      var r := FirstTruthy(candidates[1..], fallback);
      assert forall i :: 1 <= i < |candidates| ==> candidates[i] == candidates[1..][i - 1];
      r
  }

  /** A chain ending in a non-empty fallback never yields the empty string. */
  lemma FirstTruthyNonEmpty(candidates: seq<Option<string>>, fallback: string)
    requires fallback != ""
    ensures FirstTruthy(candidates, fallback) != ""
  {
  }

  const NoSummary: string := "No summary found."
  const FetchFailed: string := "Failed to fetch insights."

  /** The fields the summary chain probes, in order; an absent body has none of them. */
  function SummaryCandidates(data: Option<ApiData>): (cs: seq<Option<string>>)
    ensures |cs| == 4
  {
    match data
    case None => [None, None, None, None]
    case Some(d) => [d.summary, d.insights, d.result, d.text]
  }

  /**
   * The summary shown and saved: the first truthy of `summary`, `insights`, `result` and `text`,
   * else the fixed fallback; it is never empty.
   */
  function SummaryOf(data: Option<ApiData>): (r: string)
    ensures r != ""
    ensures data.None? ==> r == NoSummary
    ensures data.Some? ==> var d := data.value;
      && (Truthy(d.summary) ==> r == d.summary.value)
      && (!Truthy(d.summary) && Truthy(d.insights) ==> r == d.insights.value)
      && (!Truthy(d.summary) && !Truthy(d.insights) && Truthy(d.result) ==> r == d.result.value)
      && (!Truthy(d.summary) && !Truthy(d.insights) && !Truthy(d.result) && Truthy(d.text)
          ==> r == d.text.value)
      && (!Truthy(d.summary) && !Truthy(d.insights) && !Truthy(d.result) && !Truthy(d.text)
          ==> r == NoSummary)
  {
    var cs := SummaryCandidates(data);
    FirstTruthyNonEmpty(cs, NoSummary);
    var r := FirstTruthy(cs, NoSummary);
    assert data.Some? && !Truthy(cs[0]) && !Truthy(cs[1]) && Truthy(cs[2]) ==> r == cs[2].value;
    assert data.Some? && !Truthy(cs[0]) && !Truthy(cs[1]) && !Truthy(cs[2]) && Truthy(cs[3]) ==> r == cs[3].value;
    r
  }

  /**
   * The error shown after a rejected request: the server's `error` field, else the rejection's
   * message, else the fixed fallback; it is never empty.
   */
  function ErrorOf(responseError: Option<string>, message: Option<string>): (r: string)
    ensures r != ""
    ensures Truthy(responseError) ==> r == responseError.value
    ensures !Truthy(responseError) && Truthy(message) ==> r == message.value
    ensures !Truthy(responseError) && !Truthy(message) ==> r == FetchFailed
  {
    FirstTruthyNonEmpty([responseError, message], FetchFailed);
    FirstTruthy([responseError, message], FetchFailed)
  }

  /** The detail level the client sends: "high" exactly for the "in-depth" research depth, "low" otherwise. */
  function DetailLevelFor(researchDepth: string): (r: string)
    ensures r == "high" <==> researchDepth == "in-depth"
    ensures r == "high" || r == "low"
  {
    if researchDepth == "in-depth" then "high" else "low"
  }

  /**
   * `Section` renders its text only when the text is a string that is non-empty after trimming;
   * so it renders exactly when the text has a character other than whitespace.
   */
  function SectionVisible(text: Option<string>): (b: bool)
    ensures b <==> text.Some? && !AllSpace(text.value)
    ensures b ==> exists i :: 0 <= i < |text.value| && !IsSpace(text.value[i])
  {
    text.Some? && text.value != "" && Trim(text.value) != ""
  }

  // ---- Saved reports ---------------------------------------------------------------------

  /** One saved report; `lastUpdated` is the ISO timestamp, taken as given. */
  datatype Report = Report(
    topic: string,
    summary: string,
    details: Option<ApiData>,
    updateInterval: string,
    researchDepth: string,
    lastUpdated: string)

  /** Reports with equal keys replace one another: the topic compares case-insensitively. */
  datatype Key = Key(topic: string, researchDepth: string, updateInterval: string)

  function KeyOf(r: Report): Key {
    Key(Lower(r.topic), r.researchDepth, r.updateInterval)
  }

  /** The saved reports whose key differs from `k`, in their original order (the `filter`). */
  function WithoutKey(reports: seq<Report>, k: Key): (r: seq<Report>)
    ensures |r| <= |reports|
    ensures forall x :: x in r <==> x in reports && KeyOf(x) != k
  {
    if reports == [] then []
    else if KeyOf(reports[0]) != k then [reports[0]] + WithoutKey(reports[1..], k)
    else WithoutKey(reports[1..], k)
  }

  /** Filtering distributes over concatenation: every kept report keeps its place among the others. */
  lemma {:induction false} WithoutKeyConcat(a: seq<Report>, b: seq<Report>, k: Key)
    ensures WithoutKey(a + b, k) == WithoutKey(a, k) + WithoutKey(b, k)
  {
    if a == [] {
      assert a + b == b;
    } else {
      assert (a + b)[0] == a[0];
      assert (a + b)[1..] == a[1..] + b;
      WithoutKeyConcat(a[1..], b, k);
    }
  }

  /** A single report is kept exactly when its key differs. */
  lemma WithoutKeySingle(x: Report, k: Key)
    ensures WithoutKey([x], k) == if KeyOf(x) != k then [x] else []
  {
    assert [x][1..] == [];
  }

  /** A list without the key is left as it is. */
  lemma {:induction false} WithoutKeyAbsent(reports: seq<Report>, k: Key)
    requires forall x :: x in reports ==> KeyOf(x) != k
    ensures WithoutKey(reports, k) == reports
  {
    if reports != [] {
      assert reports == [reports[0]] + reports[1..];
      WithoutKeyAbsent(reports[1..], k);
    }
  }

  /** How many reports carry the key. */
  function CountKey(reports: seq<Report>, k: Key): (n: nat)
    ensures n <= |reports|
    ensures n == 0 <==> forall x :: x in reports ==> KeyOf(x) != k
  {
    if reports == [] then 0
    else (if KeyOf(reports[0]) == k then 1 else 0) + CountKey(reports[1..], k)
  }

  lemma {:induction false} CountKeyConcat(a: seq<Report>, b: seq<Report>, k: Key)
    ensures CountKey(a + b, k) == CountKey(a, k) + CountKey(b, k)
  {
    if a == [] {
      assert a + b == b;
    } else {
      assert (a + b)[0] == a[0];
      assert (a + b)[1..] == a[1..] + b;
      CountKeyConcat(a[1..], b, k);
    }
  }

  /**
   * The history after a successful generate: every report with the new report's key removed, the
   * others in their order, and the new report last; so it grows by at most one.
   */
  function UpdateReports(saved: seq<Report>, n: Report): (r: seq<Report>)
    ensures |r| > 0 && r[|r| - 1] == n
    ensures r[..|r| - 1] == WithoutKey(saved, KeyOf(n))
    ensures |r| <= |saved| + 1
  {
    var kept := WithoutKey(saved, KeyOf(n));
    var r := kept + [n];
    assert r[..|r| - 1] == kept;
    r
  }

  /**
   * The updated history holds exactly one report with the new report's key, and its reports are the
   * new one and the old ones with another key.
   */
  lemma UpdateReportsContents(saved: seq<Report>, n: Report)
    ensures CountKey(UpdateReports(saved, n), KeyOf(n)) == 1
    ensures forall x :: x in UpdateReports(saved, n) <==> x == n || (x in saved && KeyOf(x) != KeyOf(n))
  {
    var kept := WithoutKey(saved, KeyOf(n));
    assert UpdateReports(saved, n) == kept + [n];
    CountKeyConcat(kept, [n], KeyOf(n));
    assert [n][1..] == [];
  }

  /** No two saved reports share a key. */
  predicate UniqueKeys(reports: seq<Report>) {
    forall i, j :: 0 <= i < j < |reports| ==> KeyOf(reports[i]) != KeyOf(reports[j])
  }

  /** Unique keys in a list: the head's key is not repeated in the tail, and the tail's keys are unique. */
  lemma UniqueKeysSplit(reports: seq<Report>)
    requires reports != [] && UniqueKeys(reports)
    ensures UniqueKeys(reports[1..])
    ensures forall y :: y in reports[1..] ==> KeyOf(y) != KeyOf(reports[0])
  {
    var tail := reports[1..];
    forall i, j | 0 <= i < j < |tail| ensures KeyOf(tail[i]) != KeyOf(tail[j]) {
      assert tail[i] == reports[i + 1] && tail[j] == reports[j + 1];
    }
    forall y | y in tail ensures KeyOf(y) != KeyOf(reports[0]) {
      var m :| 0 <= m < |tail| && tail[m] == y;
      assert tail[m] == reports[m + 1];
    }
  }

  /** A report whose key the list does not hold can be put in front of it. */
  lemma UniqueKeysCons(x: Report, rest: seq<Report>)
    requires UniqueKeys(rest)
    requires forall y :: y in rest ==> KeyOf(y) != KeyOf(x)
    ensures UniqueKeys([x] + rest)
  {
    var r := [x] + rest;
    forall i, j | 0 <= i < j < |r| ensures KeyOf(r[i]) != KeyOf(r[j]) {
      assert r[j] == rest[j - 1];
      if i > 0 {
        assert r[i] == rest[i - 1];
      }
    }
  }

  /** Filtering keeps keys unique. */
  lemma {:induction false} WithoutKeyUnique(reports: seq<Report>, k: Key)
    requires UniqueKeys(reports)
    ensures UniqueKeys(WithoutKey(reports, k))
  {
    if reports != [] {
      UniqueKeysSplit(reports);
      WithoutKeyUnique(reports[1..], k);
      if KeyOf(reports[0]) != k {
        UniqueKeysCons(reports[0], WithoutKey(reports[1..], k));
      }
    }
  }

  /** A history with unique keys keeps them unique through every update. */
  lemma UpdatePreservesUnique(saved: seq<Report>, n: Report)
    requires UniqueKeys(saved)
    ensures UniqueKeys(UpdateReports(saved, n))
  {
    var kept := WithoutKey(saved, KeyOf(n));
    WithoutKeyUnique(saved, KeyOf(n));
    var r := UpdateReports(saved, n);
    forall i, j | 0 <= i < j < |r| ensures KeyOf(r[i]) != KeyOf(r[j]) {
      assert r[i] == kept[i];
      assert r[i] in kept;
      if j < |r| - 1 {
        assert r[j] == kept[j];
      }
    }
  }

  /**
   * Updating with a report and then with another of the same key is updating with the second alone:
   * regenerating a report replaces it in place of the old one. With the same report twice this is
   * idempotence.
   */
  lemma UpdateReplacesSameKey(saved: seq<Report>, n: Report, n': Report)
    requires KeyOf(n') == KeyOf(n)
    ensures UpdateReports(UpdateReports(saved, n), n') == UpdateReports(saved, n')
  {
    var k := KeyOf(n);
    var kept := WithoutKey(saved, k);
    WithoutKeyConcat(kept, [n], k);
    WithoutKeySingle(n, k);
    WithoutKeyAbsent(kept, k);
    assert kept + [] == kept;
  }

  lemma UpdateIdempotent(saved: seq<Report>, n: Report)
    ensures UpdateReports(UpdateReports(saved, n), n) == UpdateReports(saved, n)
  {
    UpdateReplacesSameKey(saved, n, n);
  }

  /**
   * The history compares topics case-insensitively: in any history, a report differing from an
   * earlier one only in topic case replaces it.
   */
  lemma KeyIgnoresTopicCase(saved: seq<Report>, a: Report, b: Report)
    requires Lower(a.topic) == Lower(b.topic)
    requires a.researchDepth == b.researchDepth && a.updateInterval == b.updateInterval
    ensures UpdateReports(UpdateReports(saved, a), b) == UpdateReports(saved, b)
  {
    UpdateReplacesSameKey(saved, a, b);
  }
}
