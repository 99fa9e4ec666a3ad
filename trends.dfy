/** The two endpoints around the analyzer: `get_trends` for one keyword and
    `get_trends_batch`, which runs it over a comma-separated keyword list. */
module Trends {
  import opened Wrappers
  import Series
  import Keywords

  /** What the provider call (`build_payload` then `interest_over_time`)
      gives for one keyword: an exception with its message, or a frame,
      reduced to the keyword's column (None when the frame is empty or has
      no such column). */
  datatype Fetch = Raised(detail: string) | Fetched(column: Option<seq<int>>)

  /** An `HTTPException`: status code and detail message. */
  datatype ApiError = ApiError(status: int, detail: string)

  /** The body of one single-keyword response. */
  datatype TrendResult = TrendResult(keyword: string, summary: Series.Summary)

  /** Status code of every failure of `get_trends`. */
  const InternalError := 500

  /** `get_trends(keyword)`, given what the provider answered. */
  function GetTrends(keyword: string, fetch: Fetch): (r: Result<TrendResult, ApiError>)
    ensures r.Err? <==> fetch.Raised?
    ensures r.Err? ==> r.error == ApiError(InternalError, fetch.detail)
    ensures r.Ok? ==> r.value == TrendResult(keyword, Series.Analyze(fetch.column))
    ensures fetch == Fetched(None) ==> r == Ok(TrendResult(keyword, Series.NoDataSummary))
  {
    match fetch
    case Raised(detail) => Err(ApiError(InternalError, detail))
    case Fetched(column) => Ok(TrendResult(keyword, Series.Analyze(column)))
  }

  /** What the endpoint documents of its response: when the provider
      answers with a column on the 0-100 scale, the response succeeds,
      echoes the keyword, carries the column unchanged as `data_points`, and
      its current, average and peak scores are on the 0-100 scale too. */
  lemma GetTrendsResponse(keyword: string, column: Option<seq<int>>)
    requires column.Some? ==> forall i :: 0 <= i < |column.value| ==> 0 <= column.value[i] <= 100
    ensures var r := GetTrends(keyword, Fetched(column));
            && r.Ok?
            && r.value.keyword == keyword
            && r.value.summary.dataPoints == (if column.Some? then column.value else [])
            && 0 <= r.value.summary.current <= 100
            && 0 <= r.value.summary.average <= 100
            && 0 <= r.value.summary.peak <= 100
  {
    if column.Some? && column.value != [] {
      Series.ScoresStayOnScale(column.value);
    }
  }

  /** `get_trends_batch(keywords)`. `fetch(i, k)` is the provider's answer to
      the `i`-th call of the batch, which asks for keyword `k`. An exception
      in any call leaves the batch at once and becomes its response. */
  method GetTrendsBatch(keywords: string, fetch: (nat, string) -> Fetch)
    returns (r: Result<seq<TrendResult>, ApiError>)
    ensures var list := Keywords.ParseKeywords(keywords);
            r.Ok? <==> forall i :: 0 <= i < |list| ==> GetTrends(list[i], fetch(i, list[i])).Ok?
    ensures var list := Keywords.ParseKeywords(keywords);
            r.Ok? ==> |r.value| == |list|
                      && forall i :: 0 <= i < |list| ==>
                           GetTrends(list[i], fetch(i, list[i])) == Ok(r.value[i])
    ensures var list := Keywords.ParseKeywords(keywords);
            r.Err? ==> exists i :: 0 <= i < |list|
                         && GetTrends(list[i], fetch(i, list[i])) == Err(r.error)
                         && forall j :: 0 <= j < i ==> GetTrends(list[j], fetch(j, list[j])).Ok?
  {
    var keywordList := Keywords.ParseKeywords(keywords);
    var results: seq<TrendResult> := [];
    for i := 0 to |keywordList|
      invariant |results| == i
      invariant forall j :: 0 <= j < i ==>
                  GetTrends(keywordList[j], fetch(j, keywordList[j])) == Ok(results[j])
    {
      var result := GetTrends(keywordList[i], fetch(i, keywordList[i]));
      if result.Err? {
        assert forall j :: 0 <= j < i ==> GetTrends(keywordList[j], fetch(j, keywordList[j])).Ok?;
        return Err(result.error);
      }
      results := results + [result.value];
    }
    return Ok(results);
  }
}
