/** The handler of src/service/api/search.js. */
module SearchApi {
  import opened Wrappers
  import opened Json
  import opened Http

  /** The answer, and the value the search service was asked for (`None`: it was not called). */
  datatype Searched<R> = Searched(response: Response<seq<R>>, asked: Option<Value>)

  /**
   * `GET /api/search`: `query` defaults to the empty string; a falsy query is
   * refused before the service is called. `findAll` stands for the search
   * service.
   */
  function Search<R>(requestQuery: Object, findAll: Value -> seq<R>): (r: Searched<R>)
    ensures r.asked.None? <==> !Truthy(Get(requestQuery, "query"))
    ensures r.asked.None? ==> r.response == Response(BAD_REQUEST, Text("Search query should not be empty"))
    ensures r.asked.Some? ==> r.asked.value == Get(requestQuery, "query")
    ensures r.asked.Some? ==> r.response == Response(OK, Json(findAll(r.asked.value)))
  {
    var query := if Get(requestQuery, "query") == Undefined then Str("") else Get(requestQuery, "query");
    if !Truthy(query) then Searched(Response(BAD_REQUEST, Text("Search query should not be empty")), None)
    else Searched(Response(OK, Json(findAll(query))), Some(query))
  }

  /** A search with no `query` parameter, or an empty one, is a 400; results, even none, are a 200. */
  lemma SearchStatus<R>(requestQuery: Object, findAll: Value -> seq<R>)
    ensures Get(requestQuery, "query") in {Undefined, Str("")} ==> Search(requestQuery, findAll).response.status == BAD_REQUEST
    ensures Get(requestQuery, "query").Str? && Get(requestQuery, "query").s != "" ==>
      Search(requestQuery, findAll).response.status == OK
  {
  }
}
