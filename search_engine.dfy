/** The result shaping of backend/search_engine.py: how `perform_search` turns the outcome
    of the ImgBB upload and the SerpApi Google Lens query into the dictionary the API
    returns, and the `VisualSearchEngine` singleton. The two HTTP calls are inputs: their
    outcome (a URL or response body, or the failure they raised) is given, not computed. */
module SearchEngine {
  import opened Wrappers
  import opened Text
  import opened Json

  const NoMatchesMessage: string := "No visual matches found."
  const InternalErrorMessage: string := "Internal Server Error"

  /** One entry of the returned `visual_matches`: always these five keys. The values are
      whatever the Lens response held (not necessarily strings) or the defaults. */
  datatype Match = Match(title: Json, link: Json, price: Json, thumbnail: Json, source: Json)

  /** The dictionary `perform_search` returns; `error` is the optional `"error"` key. */
  datatype SearchResult = SearchResult(
    visualMatches: seq<Match>,
    latency: string,
    statusMessages: seq<string>,
    error: Option<string>)

  /** How one HTTP call failed: `raise_for_status` with the response's status code, or any
      other exception (connection error, bad JSON, missing key) with its `str(e)`. */
  datatype CallFailure = HttpStatus(code: nat) | Raised(detail: string)

  datatype UploadOutcome = Uploaded(url: string) | UploadFailed(failure: CallFailure)
  datatype LensOutcome = LensResponse(body: map<string, Json>) | LensFailed(failure: CallFailure)

  /** `message` is `prefix` followed by the decimal digits of `code`. */
  predicate StatusReadsBack(message: string, prefix: string, code: nat)
  {
    && StartsWith(message, prefix)
    && |message| > |prefix|
    && (forall i :: |prefix| <= i < |message| ==> '0' <= message[i] <= '9')
    && DecimalValue(message[|prefix|..]) == code
  }

  lemma HttpStatusMessage(prefix: string, f: CallFailure)
    ensures f.HttpStatus? ==> StatusReadsBack(prefix + NatToString(f.code), prefix, f.code)
  {
    if f.HttpStatus? {
      var m := prefix + NatToString(f.code);
      assert m[..|prefix|] == prefix;
      assert m[|prefix|..] == NatToString(f.code);
      NatToStringRoundTrip(f.code);
    }
  }

  /** The message of the `ExternalAPIError` raised by `_upload_to_imgbb`: an HTTP error
      reports its status code, which can be read back from the message; any other failure
      keeps its own text after a fixed prefix. */
  function UploadErrorMessage(f: CallFailure): (r: string)
    ensures f.HttpStatus? ==> StatusReadsBack(r, "ImgBB returned error: ", f.code)
    ensures f.Raised? ==> StartsWith(r, "ImgBB upload failed: ") && r[21..] == f.detail
  {
    HttpStatusMessage("ImgBB returned error: ", f);
    match f
    case HttpStatus(code) => "ImgBB returned error: " + NatToString(code)
    case Raised(detail) => "ImgBB upload failed: " + detail
  }

  /** The message of the `ExternalAPIError` raised by `_search_serpapi`: an HTTP error
      reports its status code; any other failure is passed on as its bare `str(e)`. */
  function LensErrorMessage(f: CallFailure): (r: string)
    ensures f.HttpStatus? ==> StatusReadsBack(r, "SerpApi returned error: ", f.code)
    ensures f.Raised? ==> r == f.detail
  {
    HttpStatusMessage("SerpApi returned error: ", f);
    match f
    case HttpStatus(code) => "SerpApi returned error: " + NatToString(code)
    case Raised(detail) => detail
  }

  /** The `price` expression: a dict price yields its `"value"` (or "N/A"); any other price
      is kept as it is, and a missing one becomes "N/A". */
  function PriceOf(m: map<string, Json>): (r: Json)
    ensures "price" !in m ==> r == Str("N/A")
    ensures "price" in m && !m["price"].Obj? ==> r == m["price"]
    ensures "price" in m && m["price"].Obj? && "value" in m["price"].fields ==>
      r == m["price"].fields["value"]
    ensures "price" in m && m["price"].Obj? && "value" !in m["price"].fields ==> r == Str("N/A")
  {
    if "price" in m && m["price"].Obj? then Get(m["price"].fields, "value", Str("N/A"))
    else Get(m, "price", Str("N/A"))
  }

  /** The fixed-shape record built from one raw Lens match. Missing fields take their
      defaults and present ones are kept, whatever their type; the price follows `PriceOf`,
      so a present `price` of `null` stays `null` (it is not a dict, and the key exists). */
  function NormalizeMatch(m: map<string, Json>): (r: Match)
    ensures "title" !in m ==> r.title == Str("No Title")
    ensures "link" !in m ==> r.link == Str("#")
    ensures "thumbnail" !in m ==> r.thumbnail == Str("")
    ensures "source" !in m ==> r.source == Str("Google Lens")
    ensures "title" in m ==> r.title == m["title"]
    ensures "link" in m ==> r.link == m["link"]
    ensures "thumbnail" in m ==> r.thumbnail == m["thumbnail"]
    ensures "source" in m ==> r.source == m["source"]
    ensures r.price == PriceOf(m)
  {
    Match(
      Get(m, "title", Str("No Title")),
      Get(m, "link", Str("#")),
      PriceOf(m),
      Get(m, "thumbnail", Str("")),
      Get(m, "source", Str("Google Lens")))
  }

  /** Every raw match is a dict. */
  predicate AllObjects(items: seq<Json>)
  {
    forall k :: 0 <= k < |items| ==> items[k].Obj?
  }

  /** The matches a successful loop produces: one normalised record per raw match, in order. */
  function NormalizeAll(items: seq<Json>): (r: seq<Match>)
    requires AllObjects(items)
  {
    seq(|items|, k requires 0 <= k < |items| => NormalizeMatch(items[k].fields))
  }

  /** The record as a dict again, as the API serialises it. */
  function MatchToObject(r: Match): map<string, Json>
  {
    map["title" := r.title, "link" := r.link, "price" := r.price,
        "thumbnail" := r.thumbnail, "source" := r.source]
  }

  /** Shaping is idempotent: a record whose price is not itself a dict comes back unchanged
      when its own dict is shaped again. */
  lemma NormalizeIsFixedPoint(r: Match)
    requires !r.price.Obj?
    ensures NormalizeMatch(MatchToObject(r)) == r
  {
  }

  /** The `for match in ...: visual_matches.append({...})` loop. A raw match that is not a
      dict makes `match.get` raise an AttributeError, which ends the loop. */
  method ShapeMatches(items: seq<Json>) returns (r: Result<seq<Match>, string>)
    ensures r.Ok? <==> AllObjects(items)
    ensures r.Ok? ==> r.value == NormalizeAll(items)
    ensures r.Err? ==>
      (exists k :: (0 <= k < |items| && !items[k].Obj? && AllObjects(items[..k])
                    && r.error == NoGetMessage(PyTypeName(items[k]))))
  {
    var shaped: seq<Match> := [];
    var i := 0;
    while i < |items|
      invariant 0 <= i <= |items|
      invariant AllObjects(items[..i])
      invariant |shaped| == i
      invariant forall k :: 0 <= k < i ==> shaped[k] == NormalizeMatch(items[k].fields)
    {
      if !items[i].Obj? {
        return Err(NoGetMessage(PyTypeName(items[i])));
      }
      shaped := shaped + [NormalizeMatch(items[i].fields)];
      i := i + 1;
    }
    assert items[..i] == items;
    return Ok(shaped);
  }

  /** What `for match in v` yields, or the error it raises. A dict yields its keys and a str
      its characters: both are strs, so a non-empty one fails on the first `get`. */
  function IterateMatches(v: Json): (r: Result<seq<Json>, string>)
    ensures v.Arr? ==> r == Ok(v.items)
    ensures r.Ok? && !v.Arr? ==> r.value == []
  {
    match v
    case Arr(items) => Ok(items)
    case Obj(fields) => if |fields| == 0 then Ok([]) else Err(NoGetMessage("str"))
    case Str(s) => if |s| == 0 then Ok([]) else Err(NoGetMessage("str"))
    case _ => Err(NotIterableMessage(PyTypeName(v)))
  }

  /** The dictionary returned from an `except` branch. */
  function FailureResult(latency: string, statusMessage: string, error: string): (r: SearchResult)
    ensures r.visualMatches == [] && r.latency == latency
    ensures r.statusMessages == [statusMessage] && r.error == Some(error)
  {
    SearchResult([], latency, [statusMessage], Some(error))
  }

  /** The dictionary returned when the whole `try` body completed. */
  function SuccessResult(matches: seq<Match>, latency: string): (r: SearchResult)
    ensures r.visualMatches == matches && r.latency == latency && r.error.None?
    ensures r.statusMessages == [] <==> matches != []
    ensures matches == [] ==> r.statusMessages == [NoMatchesMessage]
  {
    SearchResult(matches, latency, if matches == [] then [NoMatchesMessage] else [], None)
  }

  /** Both calls succeeded: the upload gave a URL and Lens answered for it. */
  predicate Responded(upload: UploadOutcome, lens: string -> LensOutcome)
  {
    upload.Uploaded? && lens(upload.url).LensResponse?
  }

  /** The Lens response body, when both calls succeeded. */
  function Body(upload: UploadOutcome, lens: string -> LensOutcome): map<string, Json>
    requires Responded(upload, lens)
  {
    lens(upload.url).body
  }

  /** `perform_search`. `upload` is what `_upload_to_imgbb` produced and `lens` what
      `_search_serpapi` produces for a URL (called only after a successful upload);
      `latency` is the formatted elapsed time. Neither call's failure escapes: every
      exception ends in a result with an `error` key. */
  method PerformSearch(upload: UploadOutcome, lens: string -> LensOutcome, latency: string)
    returns (r: SearchResult)
    ensures r.latency == latency
    // ExternalAPIError from either call: its message is both the status message and the error
    ensures upload.UploadFailed? ==>
      var msg := UploadErrorMessage(upload.failure); r == FailureResult(latency, msg, msg)
    ensures upload.Uploaded? && lens(upload.url).LensFailed? ==>
      var msg := LensErrorMessage(lens(upload.url).failure); r == FailureResult(latency, msg, msg)
    // a response without "visual_matches" is a success with no matches
    ensures (Responded(upload, lens) && "visual_matches" !in Body(upload, lens)) ==>
      r == SuccessResult([], latency)
    // a list of dicts is shaped one to one, in order
    ensures (Responded(upload, lens) && "visual_matches" in Body(upload, lens) &&
             Body(upload, lens)["visual_matches"].Arr? &&
             AllObjects(Body(upload, lens)["visual_matches"].items)) ==>
      r == SuccessResult(NormalizeAll(Body(upload, lens)["visual_matches"].items), latency)
    // any other `visual_matches` value: what iterating over it yields decides the result
    ensures (Responded(upload, lens) && "visual_matches" in Body(upload, lens) &&
             IterateMatches(Body(upload, lens)["visual_matches"]).Err?) ==>
      r == FailureResult(latency, InternalErrorMessage,
                         IterateMatches(Body(upload, lens)["visual_matches"]).error)
    ensures (Responded(upload, lens) && "visual_matches" in Body(upload, lens) &&
             IterateMatches(Body(upload, lens)["visual_matches"]).Ok? &&
             AllObjects(IterateMatches(Body(upload, lens)["visual_matches"]).value)) ==>
      r == SuccessResult(NormalizeAll(IterateMatches(Body(upload, lens)["visual_matches"]).value),
                         latency)
    ensures (Responded(upload, lens) && "visual_matches" in Body(upload, lens) &&
             IterateMatches(Body(upload, lens)["visual_matches"]).Ok? &&
             !AllObjects(IterateMatches(Body(upload, lens)["visual_matches"]).value)) ==>
      var items := IterateMatches(Body(upload, lens)["visual_matches"]).value;
      exists k :: && 0 <= k < |items| && !items[k].Obj? && AllObjects(items[..k])
                  && r == FailureResult(latency, InternalErrorMessage, NoGetMessage(PyTypeName(items[k])))
    // the shape rules every result obeys
    ensures r.error.None? ==> (r.statusMessages == [] <==> r.visualMatches != [])
    ensures r.error.None? && r.visualMatches == [] ==> r.statusMessages == [NoMatchesMessage]
    ensures r.error.Some? ==>
      (r.visualMatches == [] &&
       (r.statusMessages == [r.error.value] || r.statusMessages == [InternalErrorMessage]))
  {
    if upload.UploadFailed? {
      var msg := UploadErrorMessage(upload.failure);
      return FailureResult(latency, msg, msg);
    }
    var response := lens(upload.url);
    if response.LensFailed? {
      var msg := LensErrorMessage(response.failure);
      return FailureResult(latency, msg, msg);
    }
    var matches: seq<Match> := [];
    if "visual_matches" in response.body {
      var raw := IterateMatches(response.body["visual_matches"]);
      if raw.Err? {
        return FailureResult(latency, InternalErrorMessage, raw.error);
      }
      var shaped := ShapeMatches(raw.value);
      if shaped.Err? {
        return FailureResult(latency, InternalErrorMessage, shaped.error);
      }
      matches := shaped.value;
    }
    return SuccessResult(matches, latency);
  }

  /** An engine instance; it holds no state of its own in the model. */
  class VisualSearchEngine {
    constructor ()
    {
    }
  }

  /** The class object of `VisualSearchEngine`, whose attribute `_instance` `__new__` fills
      on first use. */
  class EngineClass {
    var instance: VisualSearchEngine?

    constructor ()
      ensures instance == null
    {
      instance := null;
    }

    /** `VisualSearchEngine.__new__`: the first call creates the instance, every later call
        returns it. */
    method New() returns (e: VisualSearchEngine)
      modifies this
      ensures old(instance) != null ==> e == old(instance)
      ensures old(instance) == null ==> fresh(e)
      ensures instance == e
    {
      if instance == null {
        instance := new VisualSearchEngine();
      }
      e := instance;
    }
  }

  /** Two constructions in a row yield one and the same object. */
  method ConstructTwice(cls: EngineClass) returns (a: VisualSearchEngine, b: VisualSearchEngine)
    modifies cls
    ensures a == b && cls.instance == a
  {
    a := cls.New();
    b := cls.New();
  }
}
