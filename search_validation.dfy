/** The `search` middleware that screens `GET /search` queries. */
module SearchValidation {
  import opened Js

  /**
   * `search`: a non-empty string `filter` is enough; otherwise both
   * `keyword` and `types` must be truthy. Anything else is a 400.
   */
  function Search(query: map<string, JsValue>): (o: Outcome)
    ensures o == Next <==>
      (exists s :: s != "" && Get(query, "filter") == Str(s))
      || (Truthy(Get(query, "keyword")) && Truthy(Get(query, "types")))
    ensures o != Next ==> o == BadRequest
  {
    var filter := Get(query, "filter");
    if (Truthy(filter) && filter.Str?) || (Truthy(Get(query, "keyword")) && Truthy(Get(query, "types"))) then
      Next
    else
      BadRequest
  }

  /** A keyword without `types` is refused unless a string filter comes with it. */
  lemma KeywordNeedsTypes(keyword: string, filter: JsValue)
    requires keyword != "" && !filter.Str?
    ensures Search(map["keyword" := Str(keyword), "filter" := filter]) == BadRequest
  {
  }
}
