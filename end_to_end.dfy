/** The round trip between the search page and the backend: the `Response` that
    `search_image` sends becomes what `fetch` and `response.json()` give `handleSearch`.
    FastAPI sends every response with a JSON body; `response.ok` holds for the 200 only. */
module EndToEnd {
  import opened Wrappers
  import SearchEngine
  import Api
  import App

  /** What the page receives for a backend response. An error body is `{"detail": ...}`,
      so it carries none of the keys `SEARCH_SUCCESS` reads. */
  function Receive(r: Api.Response): (o: App.FetchOutcome)
    ensures o.Responded? && o.json.Some?
    ensures o.ok <==> r.JsonBody?
    ensures r.JsonBody? ==>
      (&& o.json.value.visualMatches == Some(r.body.visualMatches)
       && o.json.value.latency == Some(r.body.latency)
       && o.json.value.statusMessages == Some(r.body.statusMessages))
  {
    match r
    case JsonBody(body) =>
      App.Responded(true, Some(App.Payload(Some(body.visualMatches), Some(body.latency),
                                           Some(body.statusMessages))))
    case ErrorResponse(_, _) => App.Responded(false, Some(App.Payload(None, None, None)))
  }

  /** The page after pressing search with an upload of the given size and type. */
  function SearchPage(s: App.State, size: nat, contentType: Option<string>,
                      engineResult: SearchEngine.SearchResult): App.State
  {
    App.Step(s, App.Search(Receive(Api.SearchImage(size, contentType, engineResult))))
  }

  /** A rejected upload (too large, or a type the backend refuses) shows the page's generic
      "backend not running" message: neither the 400 nor its detail reaches the user. */
  lemma RejectedUploadShowsFetchFailure(s: App.State, size: nat, contentType: Option<string>,
                                         engineResult: SearchEngine.SearchResult)
    requires s.file.Some?
    requires size > Api.MaxFileSize || !Api.AcceptedType(contentType)
    ensures SearchPage(s, size, contentType, engineResult).status == App.Error
    ensures SearchPage(s, size, contentType, engineResult).error == Some(App.FetchFailedMessage)
  {
    App.SearchEnds(s, Receive(Api.SearchImage(size, contentType, engineResult)));
  }

  /** Correcting the backend to send the 400 would not change what this page shows: it
      treats every non-2xx response alike. */
  lemma PageCannotTellRejectionsApart(s: App.State, size: nat, contentType: Option<string>,
                                      engineResult: SearchEngine.SearchResult)
    ensures App.Step(s, App.Search(Receive(Api.SearchImageIntended(size, contentType, engineResult))))
      == SearchPage(s, size, contentType, engineResult)
  {
  }

  /** A failure inside the engine (an ImgBB or SerpApi error, or a malformed Lens answer)
      reaches the page as a successful search with no matches whose status message is
      the failure; the page's own error stays empty. */
  lemma EngineFailureShowsAsSuccess(s: App.State, size: nat, contentType: Option<string>,
                                    latency: string, message: string, error: string)
    requires s.file.Some?
    requires size <= Api.MaxFileSize && Api.AcceptedType(contentType)
    ensures var r := SearchPage(s, size, contentType,
                                SearchEngine.FailureResult(latency, message, error));
      && r.status == App.Success
      && r.error == None
      && r.results == Some(App.Results(Some([])))
      && r.statusMessages == [message]
  {
    var res := SearchEngine.FailureResult(latency, message, error);
    var outcome := Receive(Api.SearchImage(size, contentType, res));
    App.SearchEnds(s, outcome);
    App.DispatchTwo(s, App.UploadStart, App.SearchSuccess(outcome.json.value));
  }
}
