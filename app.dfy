/** The search page's state machine in frontend/src/App.jsx: `initialState`, the `reducer`
    over its six action types, and the actions that `processFile`, `handleDrop` and
    `handleSearch` dispatch. The network round trip of `handleSearch` is an input: what
    `fetch` and `response.json()` produced. */
module App {
  import opened Wrappers
  import opened Text
  import SearchEngine

  /** The values of `state.status`. `Uploading` is named in the source's comment only. */
  datatype Status = Idle | Uploading | Searching | Success | Error

  /** A browser `File`: its name and its MIME type (`file.type`). */
  datatype File = File(name: string, mimeType: string)

  /** `state.results`: an object holding `visual_matches` (possibly `undefined`). */
  datatype Results = Results(visualMatches: Option<seq<SearchEngine.Match>>)

  /** The parsed JSON body passed with `SEARCH_SUCCESS`; each key may be missing. */
  datatype Payload = Payload(
    visualMatches: Option<seq<SearchEngine.Match>>,
    latency: Option<string>,
    statusMessages: Option<seq<string>>)

  datatype State = State(
    status: Status,
    file: Option<File>,
    preview: Option<string>,
    results: Option<Results>,
    latency: Option<string>,
    statusMessages: seq<string>,
    error: Option<string>)

  const InitialState: State := State(Idle, None, None, None, None, [], None)

  const InvalidImageMessage: string := "Please upload a valid image file."
  const FetchFailedMessage: string := "Failed to fetch results. Ensure backend is running."

  /** The dispatched actions; `Unknown` is any other `type`. */
  datatype Action =
    | FileSelected(file: File, preview: string)
    | UploadStart
    | SearchSuccess(payload: Payload)
    | SearchError(message: string)
    | Reset
    | Unknown(actionType: string)

  /** `reducer(state, action)`. */
  function Reduce(s: State, a: Action): (r: State)
    // FILE_SELECTED: a fresh idle state holding only the new file and its preview
    ensures a.FileSelected? ==>
      r.status == Idle && r.file == Some(a.file) && r.preview == Some(a.preview) &&
      r.results == None && r.latency == None && r.statusMessages == [] && r.error == None
    // UPLOAD_START: searching, with messages and error cleared and the rest kept
    ensures a.UploadStart? ==>
      r.status == Searching && r.error == None && r.statusMessages == [] &&
      r.file == s.file && r.preview == s.preview && r.results == s.results &&
      r.latency == s.latency
    // SEARCH_SUCCESS: the payload's matches, latency and messages (`|| []`)
    ensures a.SearchSuccess? ==>
      r.status == Success && r.results == Some(Results(a.payload.visualMatches)) &&
      r.latency == a.payload.latency &&
      r.statusMessages == (if a.payload.statusMessages.Some?
                           then a.payload.statusMessages.value else []) &&
      r.file == s.file && r.preview == s.preview && r.error == s.error
    // SEARCH_ERROR: status and error only
    ensures a.SearchError? ==> r == s.(status := Error, error := Some(a.message))
    ensures a.Reset? ==> r == InitialState
    ensures a.Unknown? ==> r == s
  {
    match a
    case FileSelected(file, preview) =>
      InitialState.(status := Idle, file := Some(file), preview := Some(preview))
    case UploadStart => s.(status := Searching, error := None, statusMessages := [])
    case SearchSuccess(p) =>
      s.(status := Success,
         results := Some(Results(p.visualMatches)),
         latency := p.latency,
         statusMessages := if p.statusMessages.Some? then p.statusMessages.value else [])
    case SearchError(message) => s.(status := Error, error := Some(message))
    case Reset => InitialState
    case Unknown(_) => s
  }

  /** Dispatching a sequence of actions, first to last. */
  function Dispatch(s: State, actions: seq<Action>): State
    decreases |actions|
  {
    if actions == [] then s else Dispatch(Reduce(s, actions[0]), actions[1..])
  }

  lemma DispatchOne(s: State, a: Action)
    ensures Dispatch(s, [a]) == Reduce(s, a)
  {
    assert [a][1..] == [];
  }

  lemma DispatchTwo(s: State, a: Action, b: Action)
    ensures Dispatch(s, [a, b]) == Reduce(Reduce(s, a), b)
  {
    assert [a, b][1..] == [b];
    DispatchOne(Reduce(s, a), b);
  }

  /** The reducer never produces `Uploading`: from the initial state, no sequence of
      actions whatever reaches it. */
  lemma {:induction false} NeverUploading(s: State, actions: seq<Action>)
    requires s.status != Uploading
    ensures Dispatch(s, actions).status != Uploading
    decreases |actions|
  {
    if actions != [] {
      NeverUploading(Reduce(s, actions[0]), actions[1..]);
    }
  }

  /** What `fetch('/api/search', ...)` and `response.json()` produced: a response with its
      `ok` flag and its parsed body (`None` when the body is not JSON), or a rejected fetch. */
  datatype FetchOutcome = Responded(ok: bool, json: Option<Payload>) | FetchFailed

  /** The user events that dispatch actions: choosing a file in the file input, dropping
      something on the upload zone, and pressing the search button. `preview` is the URL
      `URL.createObjectURL` returns for the file. */
  datatype Event =
    | ChooseFile(selected: Option<File>, preview: string)
    | DropFile(dropped: Option<File>, preview: string)
    | Search(outcome: FetchOutcome)

  /** `handleFileChange` through `processFile`. */
  function HandleFileChange(selected: Option<File>, preview: string): (actions: seq<Action>)
    ensures selected.None? ==> actions == []
    ensures selected.Some? ==> actions == [FileSelected(selected.value, preview)]
  {
    if selected.Some? then [FileSelected(selected.value, preview)] else []
  }

  /** `handleDrop`: an image is selected; anything else (or nothing) is an error. */
  function HandleDrop(dropped: Option<File>, preview: string): (actions: seq<Action>)
    ensures |actions| == 1
    ensures actions[0].FileSelected? <==>
      dropped.Some? && StartsWith(dropped.value.mimeType, "image/")
    ensures actions[0].FileSelected? ==> actions == [FileSelected(dropped.value, preview)]
    ensures !actions[0].FileSelected? ==> actions == [SearchError(InvalidImageMessage)]
  {
    if dropped.Some? && StartsWith(dropped.value.mimeType, "image/") then
      [FileSelected(dropped.value, preview)]
    else [SearchError(InvalidImageMessage)]
  }

  /** `handleSearch`, given what the network produced: nothing without a file; otherwise
      `UPLOAD_START` and then exactly one of `SEARCH_SUCCESS` (a 2xx JSON response) and
      `SEARCH_ERROR`. */
  function HandleSearch(s: State, outcome: FetchOutcome): (actions: seq<Action>)
    ensures s.file.None? ==> actions == []
    ensures s.file.Some? ==> |actions| == 2 && actions[0] == UploadStart
    ensures s.file.Some? ==>
      (actions[1].SearchSuccess? <==> outcome.Responded? && outcome.ok && outcome.json.Some?)
    ensures s.file.Some? && actions[1].SearchSuccess? ==>
      actions[1] == SearchSuccess(outcome.json.value)
    ensures s.file.Some? && !actions[1].SearchSuccess? ==>
      actions[1] == SearchError(FetchFailedMessage)
  {
    if s.file.None? then []
    else if outcome.Responded? && outcome.ok && outcome.json.Some? then
      [UploadStart, SearchSuccess(outcome.json.value)]
    else [UploadStart, SearchError(FetchFailedMessage)]
  }

  function Handle(s: State, e: Event): seq<Action>
  {
    match e
    case ChooseFile(selected, preview) => HandleFileChange(selected, preview)
    case DropFile(dropped, preview) => HandleDrop(dropped, preview)
    case Search(outcome) => HandleSearch(s, outcome)
  }

  /** The state after one user event. */
  function Step(s: State, e: Event): State
  {
    Dispatch(s, Handle(s, e))
  }

  /** The state after a sequence of user events. */
  function Run(s: State, events: seq<Event>): State
    decreases |events|
  {
    if events == [] then s else Run(Step(s, events[0]), events[1..])
  }

  /** The consistency the page keeps between its fields: an error is shown exactly in the
      error status, a file always has its preview, an idle page shows no results, latency
      or messages, a search in progress shows no messages, and a success has results. */
  predicate Coherent(s: State)
  {
    && s.status != Uploading
    && (s.error.Some? <==> s.status == Error)
    && (s.file.Some? <==> s.preview.Some?)
    && (s.status == Idle ==> s.results.None? && s.latency.None? && s.statusMessages == [])
    && (s.status == Searching ==> s.statusMessages == [])
    && (s.status == Success ==> s.results.Some?)
  }

  lemma InitialCoherent()
    ensures Coherent(InitialState)
  {
  }

  /** Every user event keeps the page coherent. */
  lemma StepKeepsCoherent(s: State, e: Event)
    requires Coherent(s)
    ensures Coherent(Step(s, e))
  {
    var actions := Handle(s, e);
    if |actions| == 1 {
      DispatchOne(s, actions[0]);
      assert actions == [actions[0]];
    } else if |actions| == 2 {
      DispatchTwo(s, actions[0], actions[1]);
      assert actions == [actions[0], actions[1]];
    }
  }

  /** Hence every state the page reaches from `initialState` is coherent. */
  lemma {:induction false} RunKeepsCoherent(s: State, events: seq<Event>)
    requires Coherent(s)
    ensures Coherent(Run(s, events))
    decreases |events|
  {
    if events != [] {
      StepKeepsCoherent(s, events[0]);
      RunKeepsCoherent(Step(s, events[0]), events[1..]);
    }
  }

  /** Coherence is the handlers' doing, not the reducer's: `SEARCH_SUCCESS` right after
      `SEARCH_ERROR`, an order no handler dispatches, leaves a success with an error. */
  lemma ReducerAloneAllowsIncoherence(p: Payload)
    ensures var s := Dispatch(InitialState, [SearchError("x"), SearchSuccess(p)]);
      s.status == Success && s.error == Some("x") && !Coherent(s)
  {
    DispatchTwo(InitialState, SearchError("x"), SearchSuccess(p));
  }

  /** A search with a file ends in success or error and keeps the file and its preview. A
      successful search shows the body's matches, latency and status messages (none when the
      body has no `status_messages`). A failed search shows the fixed message and no status messages, and keeps the previous
      results and latency on screen. */
  lemma SearchEnds(s: State, outcome: FetchOutcome)
    requires s.file.Some?
    ensures var r := Step(s, Search(outcome));
      && r.file == s.file && r.preview == s.preview
      && (r.status == Success <==> outcome.Responded? && outcome.ok && outcome.json.Some?)
      && (r.status != Success ==>
            r.status == Error && r.error == Some(FetchFailedMessage) && r.statusMessages == []
            && r.results == s.results && r.latency == s.latency)
      && (r.status == Success ==>
            && r.results == Some(Results(outcome.json.value.visualMatches))
            && r.latency == outcome.json.value.latency
            && r.statusMessages == (if outcome.json.value.statusMessages.Some?
                                    then outcome.json.value.statusMessages.value else []))
  {
    var actions := HandleSearch(s, outcome);
    DispatchTwo(s, UploadStart, actions[1]);
    assert actions == [UploadStart, actions[1]];
  }

  /** A search without a file changes nothing. */
  lemma SearchWithoutFile(s: State, outcome: FetchOutcome)
    requires s.file.None?
    ensures Step(s, Search(outcome)) == s
  {
  }

  /** Dropping anything but an image only sets the error status and message. */
  lemma DropNonImage(s: State, dropped: Option<File>, preview: string)
    requires dropped.None? || !StartsWith(dropped.value.mimeType, "image/")
    ensures Step(s, DropFile(dropped, preview)) == s.(status := Error, error := Some(InvalidImageMessage))
  {
    assert Handle(s, DropFile(dropped, preview)) == [SearchError(InvalidImageMessage)];
    DispatchOne(s, SearchError(InvalidImageMessage));
  }
}
