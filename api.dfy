/** The decision logic of `search_image` in backend/main.py: the 10 MiB size limit, the
    content-type allow-list, and the catch-all `except Exception` that wraps both checks
    and the engine call. Reading the upload and the engine itself are inputs: the size and
    content type of the upload, and the dictionary `perform_search` returned. */
module Api {
  import opened Wrappers
  import opened SearchEngine

  const MaxFileSize: nat := 10 * 1024 * 1024
  const AllowedContentTypes: seq<string> := ["image/jpeg", "image/png", "image/webp"]
  const TooLargeDetail: string := "File too large. Max size is 10MB."
  const BadTypeDetail: string := "Invalid file type. Only JPEG, PNG, and WEBP are allowed."
  const ServerErrorDetail: string := "Internal Server Error"

  /** FastAPI's `HTTPException(status_code, detail)`. */
  datatype HttpException = HttpException(status: nat, detail: string)

  /** What the client receives: the engine's dictionary as a 200 JSON body, or an error
      status with its detail. */
  datatype Response = JsonBody(body: SearchResult) | ErrorResponse(status: nat, detail: string)

  /** `file.content_type` is one of the three allowed types (`None` never is). */
  predicate AcceptedType(contentType: Option<string>)
  {
    contentType.Some? && contentType.value in AllowedContentTypes
  }

  /** The two guards inside the `try`, in source order: the exception the first failing one
      raises, or `None` when the upload passes both. */
  function ValidateUpload(size: nat, contentType: Option<string>): (r: Option<HttpException>)
    ensures r.None? <==> size <= MaxFileSize && AcceptedType(contentType)
    ensures size > MaxFileSize ==> r == Some(HttpException(400, TooLargeDetail))
    ensures size <= MaxFileSize && !AcceptedType(contentType) ==>
      r == Some(HttpException(400, BadTypeDetail))
  {
    if size > MaxFileSize then Some(HttpException(400, TooLargeDetail))
    else if !AcceptedType(contentType) then Some(HttpException(400, BadTypeDetail))
    else None
  }

  /** `search_image` as written: the `HTTPException` a guard raises is itself an
      `Exception`, so the final `except` replaces it with a 500. On success the engine's
      dictionary is returned untouched, `error` key included. */
  function SearchImage(size: nat, contentType: Option<string>, engineResult: SearchResult)
    : (r: Response)
    ensures r.JsonBody? <==> size <= MaxFileSize && AcceptedType(contentType)
    ensures r.JsonBody? ==> r.body == engineResult
    ensures r.ErrorResponse? ==> r == ErrorResponse(500, ServerErrorDetail)
  {
    match ValidateUpload(size, contentType)
    case Some(_) => ErrorResponse(500, ServerErrorDetail)
    case None => JsonBody(engineResult)
  }

  /** `search_image` as its guards evidently intend: the `HTTPException` reaches the
      client (as with an `except HTTPException: raise` before the catch-all). */
  function SearchImageIntended(size: nat, contentType: Option<string>, engineResult: SearchResult)
    : (r: Response)
    ensures r.JsonBody? <==> size <= MaxFileSize && AcceptedType(contentType)
    ensures r.JsonBody? ==> r.body == engineResult
    ensures size > MaxFileSize ==> r == ErrorResponse(400, TooLargeDetail)
    ensures size <= MaxFileSize && !AcceptedType(contentType) ==>
      r == ErrorResponse(400, BadTypeDetail)
  {
    match ValidateUpload(size, contentType)
    case Some(e) => ErrorResponse(e.status, e.detail)
    case None => JsonBody(engineResult)
  }

  /** As written, a rejected upload never gets the 400 and the detail its guard raised:
      an 11 MiB PNG and a 1 KiB GIF both come back as 500 "Internal Server Error". */
  lemma RejectionsBecomeServerErrors(engineResult: SearchResult)
    ensures SearchImage(MaxFileSize + 1, Some("image/png"), engineResult)
      == ErrorResponse(500, ServerErrorDetail)
    ensures SearchImage(1024, Some("image/gif"), engineResult)
      == ErrorResponse(500, ServerErrorDetail)
    ensures SearchImageIntended(MaxFileSize + 1, Some("image/png"), engineResult)
      == ErrorResponse(400, TooLargeDetail)
  {
  }

  /** The two versions agree on every accepted upload and differ on every rejected one. */
  lemma IntendedDiffersOnlyOnRejection(size: nat, contentType: Option<string>, res: SearchResult)
    ensures (SearchImage(size, contentType, res) == SearchImageIntended(size, contentType, res))
      <==> (size <= MaxFileSize && AcceptedType(contentType))
  {
  }

  /** The limit is inclusive and the size check comes first: exactly 10 MiB passes, and an
      oversized upload is refused for its size whatever its type. */
  lemma SizeLimitBoundary(contentType: Option<string>)
    ensures ValidateUpload(MaxFileSize, Some("image/webp")).None?
    ensures ValidateUpload(MaxFileSize + 1, contentType) == Some(HttpException(400, TooLargeDetail))
  {
  }
}
