# visual-search: a verified model of its core logic

This project models the parts of the visual-search application that have their own
sequential, deterministic logic. It proves what they promise.

- **Index build** (`backend/build_index.py`), in `build_index.dfy`. This covers:
  - the extension allow-list;
  - the loader that never raises;
  - `collate_fn`;
  - the batched build loop, which keeps embedding rows and metadata records in lockstep;
  - display names and placeholder prices;
  - the rule that nothing is written unless an embedding was produced.

  The loop (`BuildIndexBatched`) is an imperative method. Its result is proved equal to a
  reference definition, `ExpectedBuild`, that does not depend on the batch size. The faiss index
  is a class whose `Add` appends rows.
- **Search-result shaping** (`backend/search_engine.py`), in `search_engine.dfy`. This
  covers:
  - `perform_search`'s match loop, field defaults, status messages and error dictionaries;
  - the `VisualSearchEngine.__new__` singleton, modelled as a class whose `_instance` field
    is filled on first use.
- **Upload validation** (`backend/main.py`), in `api.dfy`. This covers the 10 MiB limit, the
  content-type allow-list, and the catch-all `except` that turns both 400 rejections into a
  500 (see Findings).
- **Database settings** (`backend/database.py`), in `database.dfy`. This covers the
  `postgres://` to `postgresql://` rewrite and the SQLite-only `connect_args`.
- **The search page** (`frontend/src/App.jsx`), in `app.dfy`. This covers `initialState`,
  the `reducer` over its six action types, and the dispatch sequences of `handleFileChange`,
  `handleDrop` and `handleSearch`. A coherence invariant is proved for every state the page
  can reach.
- **The round trip between page and backend**, in `end_to_end.dfy`. It shows what the user
  sees for a rejected upload and for an engine failure.

Shared pieces:

- `text.dfy` models Python's ASCII `str.lower`, `str.title`, `str.startswith`, `str.find`,
  `in`, `replace(…, 1)` and `str(n)`.
- `paths.dfy` models `os.path.basename` and `os.path.splitext`.
- `lists.dfy` models filtering comprehensions and the order they keep.
- `json.dfy` models decoded JSON values, `dict.get`, and Python's error messages.
- `wrappers.dfy` holds `Option` and `Result`.

Several things are inputs to the model rather than part of it:

- the directory listing;
- the image decoder with its transform;
- the embedding network;
- the random price draws;
- the ImgBB and SerpApi call outcomes;
- the formatted latency;
- the `DATABASE_URL` environment variable;
- the browser's `fetch` result.

Three behaviours of the indexing script that the model keeps:

- A metadata record holds the copied file's path (`uploads/local_dataset/<name>`) and the
  image URL. It does not hold the source path. All three of `name`, `image` and `path` are
  computed from the file's base name. The model's `Record` therefore keeps the id, the base
  name and the price, and gives those three keys as its members `Name`, `Image` and `Path`.
- A dimension mismatch is not an error path. The extractor is required to return rows of
  one fixed length, so a mismatch cannot arise.
- The index file and the metadata file are written one after the other. Atomicity is not
  modelled; `IndexWritten` stands for both files being written.

## Model

| member | source | states |
|---|---|---|
| Text.Lower | backend/build_index.py:59 | lower-casing keeps the length and lower-cases each character, turning every upper-case letter into lower case and leaving non-letters alone |
| Text.CaseMapsKeepLetter | backend/build_index.py:59 | lower-casing moves an upper-case ASCII letter down by 32 code points and keeps a lower-case one; upper-casing does the reverse |
| Text.TitleFrom | backend/build_index.py:96 | title-casing keeps the length, the letters (up to case) and every non-letter; a letter becomes upper-case exactly when it does not follow a letter |
| Text.TitleIdempotent | backend/build_index.py:96 | title-casing a title-cased string changes nothing |
| Text.IndexOf | backend/database.py:14 | `find` returns -1 exactly when the substring occurs nowhere; otherwise it returns an index where it occurs, with no earlier occurrence |
| Text.PrefixIsFoundFirst | backend/database.py:10-11 | a string that starts with a prefix has that prefix first found at index 0, so `replace(…, 1)` rewrites the leading one |
| Text.ReplaceFirst | backend/database.py:11 | `replace(old, new, 1)`: without an occurrence the string is unchanged; otherwise the first occurrence, and only it, is replaced; a string starting with the pattern has that prefix replaced |
| Text.NatToString | backend/build_index.py:97 | decimal formatting gives a non-empty string of digits with no leading zero |
| Text.NatToStringRoundTrip | backend/build_index.py:97 | reading the decimal string back gives the number |
| PosixPath.Basename | backend/build_index.py:82 | the base name is the suffix of the path after its last `/`, and contains no `/` |
| PosixPath.ExtensionStart | backend/build_index.py:59 | the extension starts at a `.` with no `.` or `/` after it, or there is none (-1) |
| PosixPath.HasExtensionMeans | backend/build_index.py:59 | a path has an extension exactly when its last component holds a `.` with a non-`.` character before it inside that component (`a.png`, `a..png` yes; `.bashrc`, `..png`, `dir.v2/photo` no) |
| PosixPath.SplitExtCuts | backend/build_index.py:59 | the extension is non-empty exactly when the path has one, and then it is the path from its last `.` on |
| PosixPath.SplitExt | backend/build_index.py:59 | root followed by extension gives the path back; the extension is empty or starts with `.` and holds no further `.` or `/` |
| PosixPath.SplitExtLower | backend/build_index.py:59 | the extension of the lower-cased path is the lower-cased extension |
| Lists.Filter | backend/build_index.py:35 | the result is no longer than the input, and every kept element passes the test |
| Lists.FilterKeepsPassing | backend/build_index.py:35 | every input element that passes the test is in the result |
| Lists.FilterFromAll | backend/build_index.py:35 | every element of the result is taken from the input |
| Lists.FilterAppend | backend/build_index.py:35 | filtering batch by batch and joining the results equals filtering the whole list |
| Lists.KeepsOrder | backend/build_index.py:35 | the kept elements appear at strictly increasing input positions, and no passing element is left out |
| BuildIndex.ExtensionMatchIgnoresCase | backend/build_index.py:57-59 | paths that differ only in letter case are both kept or both dropped |
| BuildIndex.ImageExtensionMeans | backend/build_index.py:57-59 | a path is selected exactly when it has an extension and the lower-cased text from its last `.` is one of `.jpg`, `.jpeg`, `.png` and `.webp` |
| BuildIndex.SelectImages | backend/build_index.py:59 | every candidate has an allowed extension; every listed path with one is a candidate; the list is empty exactly when no listed path qualifies |
| BuildIndex.SelectedInListingOrder | backend/build_index.py:57-59 | the candidates are listed paths taken at strictly increasing listing positions, so none is added, repeated or reordered |
| BuildIndex.GetItem | backend/build_index.py:24-32 | loading never fails: it returns the loaded image or none, always with the original path |
| BuildIndex.LoadRange | backend/build_index.py:65-66 | the loader's batch for positions start to end is exactly the dataset's items there, in order (`shuffle=False`) |
| BuildIndex.Survivors | backend/build_index.py:35 | the survivors all hold an image, and every item of the batch that loaded survives |
| BuildIndex.SurvivorsInBatchOrder | backend/build_index.py:35 | the survivors are items of the batch taken at strictly increasing batch positions |
| BuildIndex.Collate | backend/build_index.py:34-39 | a batch in which nothing loaded gives `(None, None)`; otherwise images and paths have the survivors' count, and image i is paired with path i of survivor i |
| BuildIndex.CollateKeepsOrder | backend/build_index.py:34-39 | the collated pairs come from strictly increasing batch positions, and every item that loaded is among them |
| BuildIndex.EmbedBatch | backend/build_index.py:76-77 | the extractor gives one row per image, row i being the embedding of image i |
| BuildIndex.StackSnoc | backend/build_index.py:105 | `np.vstack` puts each batch's rows after all earlier rows, in order, so row i of the matrix is the i-th embedding produced |
| BuildIndex.UnderscoresToSpaces | backend/build_index.py:96 | each `_` becomes a space and every other character is kept, at the same position |
| BuildIndex.DisplayNameShape | backend/build_index.py:96 | the name has the root's length and contains no `_`; each `_` became a space; other characters keep their letter; a letter is upper-case exactly when it starts a word |
| BuildIndex.PriceReadsBack | backend/build_index.py:97 | the price is `$` followed by digits that read back as the draw |
| BuildIndex.MakeRecord | backend/build_index.py:94-100 | a record carries the id it was given, the base name of its source file and the price of its draw; its `Name`, `Image` and `Path` are computed from that base name |
| BuildIndex.Records | backend/build_index.py:94-95 | there is one record per path, and record i has id i |
| BuildIndex.RecordPricesInRange | backend/build_index.py:97 | record i carries the price of the i-th draw, and that draw lies between 20 and 199 |
| BuildIndex.FlatL2Index.constructor | backend/build_index.py:108 | a new index has the given dimension and no rows |
| BuildIndex.FlatL2Index.Add | backend/build_index.py:109 | `add` appends the rows, in order, after the existing ones; all rows keep the index's dimension |
| BuildIndex.IndexedAreLoadableImages | backend/build_index.py:57-79 | every indexed item is a listed file with an allowed extension, and carries the image its path loads to |
| BuildIndex.LoadableImagesAreIndexed | backend/build_index.py:57-79 | every listed file with an allowed extension that loads is indexed |
| BuildIndex.BuildOutcomeCases | backend/build_index.py:61-118 | the run returns early exactly when no listed file has an image extension, and writes the index exactly when some such file loads; otherwise it logs "Indexing failed." |
| BuildIndex.WrittenIndexAligned | backend/build_index.py:94-109 | a written index has as many rows as records; row i embeds the i-th indexed image; record i has id i and describes that same file; every row has the extractor's dimension |
| BuildIndex.FeaturesStep | backend/build_index.py:76-79 | appending a batch's embeddings keeps the stacked features equal to the embeddings of all survivors so far, and keeps the paths aligned |
| BuildIndex.BatchStep | backend/build_index.py:72-100 | one pass of the loop keeps rows and records those of all survivors so far; a batch that collates to nothing changes neither |
| BuildIndex.AppendRecords | backend/build_index.py:81-100 | the per-path loop extends the metadata to the records of all paths seen, ids continuing from `len(metadata)` |
| BuildIndex.AppendRecord | backend/build_index.py:94-100 | appending the record of one more path extends the records of the paths seen by exactly that record |
| BuildIndex.ProcessBatch | backend/build_index.py:72-100 | one batch: an all-failed batch is skipped with no extractor call and no record; otherwise its rows are appended and the rows and records stay those of every survivor so far |
| BuildIndex.WriteOutcome | backend/build_index.py:104-118 | nothing is written when no feature was produced ("Indexing failed."); otherwise a fresh index of the extractor's dimension receives all rows, next to the metadata |
| BuildIndex.IndexCandidates | backend/build_index.py:65-118 | for every batch size, batching the selected images gives the same outcome as indexing all survivors at once |
| BuildIndex.BuildIndexBatched | backend/build_index.py:57-118 | for every batch size, the run's outcome is `ExpectedBuild` |
| Json.Get | backend/search_engine.py:77-81 | `dict.get` gives the stored value for a present key and the default otherwise |
| SearchEngine.UploadErrorMessage | backend/search_engine.py:35-40 | an HTTP failure gives "ImgBB returned error: " followed by digits that read back as the status code; a raised failure gives "ImgBB upload failed: " followed by its detail |
| SearchEngine.LensErrorMessage | backend/search_engine.py:57-62 | an HTTP failure gives "SerpApi returned error: " followed by digits that read back as the status code; a raised failure gives its detail alone |
| SearchEngine.PriceOf | backend/search_engine.py:79 | a missing price is "N/A"; a non-dict price is kept; a dict price gives its `value`, or "N/A" without one |
| SearchEngine.NormalizeMatch | backend/search_engine.py:76-82 | each of title, link, thumbnail and source is kept when present and otherwise takes its default ("No Title", "#", "", "Google Lens"); the price is `PriceOf` the match |
| SearchEngine.NormalizeIsFixedPoint | backend/search_engine.py:76-82 | shaping an already shaped record (price not a dict) gives it back unchanged |
| SearchEngine.ShapeMatches | backend/search_engine.py:73-82 | the loop succeeds exactly when every raw match is a dict, yielding one shaped record per match in order; otherwise it fails on the first non-dict with Python's AttributeError message |
| SearchEngine.IterateMatches | backend/search_engine.py:75 | a list is iterated item by item; any other value yields nothing or raises |
| SearchEngine.SuccessResult | backend/search_engine.py:87-91 | a success carries the matches, the latency and no error; its status messages are empty exactly when there are matches, and "No visual matches found." otherwise |
| SearchEngine.FailureResult | backend/search_engine.py:93-108 | a failure carries no matches, the latency, the one status message and the error |
| SearchEngine.PerformSearch | backend/search_engine.py:64-108 | covers each path. Either call's failure gives its message as both status message and error. A response without `visual_matches` is an empty success. A list of dicts is shaped one to one. Any other `visual_matches` value is iterated as Python would: a failure to iterate, or the first non-dict item, gives "Internal Server Error" with the raised message as error; items that are all dicts are shaped. Status messages are empty exactly when there are matches, "No visual matches found." otherwise. Every error result has no matches |
| SearchEngine.EngineClass.constructor | backend/search_engine.py:17 | the class starts with no instance |
| SearchEngine.EngineClass.New | backend/search_engine.py:19-22 | the first construction creates the instance; every later one returns that same instance |
| SearchEngine.ConstructTwice | backend/search_engine.py:19-22 | two constructions yield one and the same object |
| Api.ValidateUpload | backend/main.py:48-58 | an upload passes exactly when it is at most 10 MiB and of an allowed type; the size check comes first |
| Api.SearchImage | backend/main.py:44-84 | as written, a valid upload gets the engine's dictionary unchanged, `error` key included; every rejection becomes 500 "Internal Server Error" |
| Api.SearchImageIntended | backend/main.py:53-58 | the corrected endpoint: each rejection reaches the client as a 400 with its own detail |
| Api.RejectionsBecomeServerErrors | backend/main.py:82-84 | an 11 MiB PNG and a GIF both get a 500, where the guards raise a 400 |
| Api.IntendedDiffersOnlyOnRejection | backend/main.py:46-84 | the written and corrected endpoints agree exactly on accepted uploads |
| Api.SizeLimitBoundary | backend/main.py:53-54 | exactly 10 MiB is accepted; one byte more is refused for its size, whatever the type |
| Database.NormalizeUrl | backend/database.py:10-11 | a `postgres://` prefix becomes `postgresql://` with the rest unchanged; other URLs are untouched; the result never starts with `postgres://` |
| Database.RawUrl | backend/database.py:7 | an unset variable gives the SQLite default; a set one, even empty, is used as it is |
| Database.DatabaseUrl | backend/database.py:7-11 | an unset variable gives the SQLite default; a set one is used, with its scheme rewritten |
| Database.ConnectArgsFor | backend/database.py:14 | `check_same_thread` is set to false exactly when "sqlite" occurs in the URL |
| Database.NormalizeIdempotent | backend/database.py:10-11 | rewriting twice is the same as rewriting once |
| Database.NormalizeChangesOnlyLegacy | backend/database.py:10-11 | a URL is changed exactly when it starts with `postgres://`, and then it starts with `postgresql://` |
| Database.DefaultIsSqlite | backend/database.py:7-14 | the default URL is `sqlite:///./sql_app.db` and gets the SQLite option |
| App.Reduce | frontend/src/App.jsx:15-45 | gives the new state field by field for each action. FILE_SELECTED resets to idle with the new file. UPLOAD_START sets searching and clears error and messages. SEARCH_SUCCESS takes the payload, with messages defaulting to []. SEARCH_ERROR sets only status and error. RESET gives the initial state. Any other action changes nothing |
| App.NeverUploading | frontend/src/App.jsx:6-45 | no sequence of actions produces the `uploading` status |
| App.HandleFileChange | frontend/src/App.jsx:51-61 | a chosen file dispatches exactly FILE_SELECTED with its preview; no file dispatches nothing |
| App.HandleDrop | frontend/src/App.jsx:73-82 | a drop dispatches one action: FILE_SELECTED with the dropped file and its preview exactly for an `image/` type, otherwise SEARCH_ERROR with "Please upload a valid image file." |
| App.HandleSearch | frontend/src/App.jsx:84-108 | without a file nothing is dispatched; otherwise UPLOAD_START, then SEARCH_SUCCESS carrying the parsed body exactly for an ok JSON response, else SEARCH_ERROR with the fixed message |
| App.InitialCoherent | frontend/src/App.jsx:5-13 | the initial state is coherent |
| App.StepKeepsCoherent | frontend/src/App.jsx:51-108 | every user event keeps the page coherent: an error is shown exactly in the error status, a file has a preview, idle shows nothing, and success has results |
| App.RunKeepsCoherent | frontend/src/App.jsx:51-108 | every state reachable by user events from a coherent state is coherent |
| App.ReducerAloneAllowsIncoherence | frontend/src/App.jsx:27-39 | the reducer alone allows a success that still shows an error; only the handlers' dispatch order rules it out |
| App.SearchEnds | frontend/src/App.jsx:84-108 | a search with a file ends in success exactly for an ok JSON response, keeping the file and showing the body's matches, latency and status messages (`|| []`); a failure shows the fixed message and keeps the old results |
| App.SearchWithoutFile | frontend/src/App.jsx:85 | a search without a file changes nothing |
| App.DropNonImage | frontend/src/App.jsx:76-81 | dropping a non-image sets only the error status and message |
| EndToEnd.Receive | frontend/src/App.jsx:93-103 | the page sees `ok` exactly for the 200; a 200 body carries the engine's matches, latency and messages |
| EndToEnd.RejectedUploadShowsFetchFailure | backend/main.py:82-84 | a rejected upload shows the page's "Ensure backend is running" message, not the rejection's detail |
| EndToEnd.PageCannotTellRejectionsApart | frontend/src/App.jsx:98-100 | a 400 and a 500 lead to the same page state |
| EndToEnd.EngineFailureShowsAsSuccess | backend/main.py:75-81 | an engine failure reaches the page as a success with no matches and the failure as its status message |

## Left out

- Image decoding, the torchvision transforms and the ResNet-50 embedding are not modelled,
  because they are floating-point numerics and foreign library calls. They appear as the
  functions `load` and `embed`.
- The embedding rows are sequences of `real`. The model does not capture float32 rounding,
  `flatten().reshape`, or the CUDA/CPU device choice.
- Listing with `glob` is an input (the sequence of paths it returned). The directory-creation
  branch of the script's entry point is not modelled.
- Copying each image (`shutil.copy2`) is not modelled. The copy sits inside a `try`, so a
  failed copy only logs a warning, and the record is appended either way. The records
  therefore do not depend on it.
- The `os.makedirs` call before each copy (backend/build_index.py:86) is not modelled. It sits
  outside the `try`. If it fails, the run aborts in the middle of the loop and nothing is
  written. The model assumes the directory can always be created.
- `faiss.write_index`, `json.dump` and the logging calls are not modelled. The outcome
  `IndexWritten` stands for both files being written.
- BuildIndex.BuildIndexBatched does not capture atomicity: the source writes the index and
  then the metadata, and a failure between the two writes is not modelled.
- BuildIndex.Price: the draws of `np.random.randint(20, 200)` are an input function `priceDraw`
  whose values are restricted to 20–199. The randomness itself is not modelled.
- The ImgBB upload, the SerpApi request, base64 encoding and `raise_for_status` are not
  modelled, because they are network I/O. They appear as the outcomes `UploadOutcome` and
  `LensOutcome`, each with the status code or the `str(e)` of a failure.
- SearchEngine.PerformSearch: the latency is an input string. The clock and the `.2f`
  formatting are not modelled.
- JSON numbers are integers. Lens floats do not occur in any field the code inspects.
- The Lens body is taken to be a JSON object, because SerpApi answers with one. A top-level
  list or string would change what `"visual_matches" in search_results` tests, and that
  case is not modelled.
- The `get_search_engine` `lru_cache` wrapper, FastAPI routing, CORS, and the reading and
  seeking of the upload are not modelled. Api.SearchImage receives the upload's size and
  content type as inputs.
- App.HandleSearch is modelled as one atomic step. Interleavings of the awaited `fetch` with
  other user events are not modelled. JavaScript's `null` and `undefined` are both `None`.
- The rendering components, the login and registration pages, `backend/telegram_utils.py`,
  `backend/config.py`, `backend/exceptions.py` and `backend/test_serpapi.py` are not part of
  this model. They hold network notifications, UI and declarations only. The Telegram helper
  sends its credentials in plain text, which is a security concern rather than logic to model.
- Nearest-neighbour queries and the confidence threshold are not modelled, because no
  modelled file runs a query.
- Text.Lower, Text.TitleFrom and PosixPath.SplitExt cover ASCII text only. Python's Unicode
  case mappings are not modelled.

## Findings

| source | as written | input that shows it | evidently intended | confidence | as-written member | corrected member |
|---|---|---|---|---|---|---|
| backend/main.py:46-84 | the `HTTPException(400)` raised by the size and type guards inside the `try` is caught by `except Exception`, and the client gets 500 "Internal Server Error" | an 11 MiB PNG, or a 1 KiB `image/gif` | a 400 with "File too large. Max size is 10MB." or "Invalid file type. Only JPEG, PNG, and WEBP are allowed." | not executed | Api.SearchImage, Api.RejectionsBecomeServerErrors | Api.SearchImageIntended, Api.IntendedDiffersOnlyOnRejection |
