/**
 * The errors the service raises and the mapping from an upstream HTTP status to either the
 * response body or one of those errors (smugmug_photo_selector/smugmug_service.py, `_make_request`).
 */
module Http {
  import opened Wrappers

  /** The service's failures; each is raised in the source as a `ValueError` (or a validation error). */
  datatype ServiceError =
    | AlbumNotFound          // 'Álbum não encontrado': upstream answered 404
    | RateLimited            // 'Rate limit excedido': upstream answered 429
    | HttpError(status: int) // 'Erro HTTP <status>': any other status from 400 up
    | KeyNotResolved         // 'Não foi possível encontrar álbum na URL'
    | EmptyAlbumId           // 'ID do álbum não pode estar vazio'
    | ValidationFailed       // a response field of the wrong JSON type, rejected by the response models

  const NotFoundStatus := 404
  const TooManyRequestsStatus := 429
  const BadRequestStatus := 400

  /** An upstream HTTP reply: its status code and its already-decoded JSON body. */
  datatype Reply<T> = Reply(status: int, body: T)

  /**
   * The outcome of one upstream request. 404 and 429 are tested before the generic branch, so
   * they get their own errors; every other status from 400 up is a generic error carrying the
   * code; anything below 400 yields the body.
   */
  function Classify<T>(reply: Reply<T>): (r: Result<T, ServiceError>)
    ensures r.Success? <==> reply.status < BadRequestStatus
    ensures r.Success? ==> r.value == reply.body
    ensures reply.status == NotFoundStatus <==> r == Failure(AlbumNotFound)
    ensures reply.status == TooManyRequestsStatus <==> r == Failure(RateLimited)
    ensures r.Failure? && r.error.HttpError? <==>
              reply.status >= BadRequestStatus && reply.status != NotFoundStatus && reply.status != TooManyRequestsStatus
    ensures r.Failure? && r.error.HttpError? ==> r.error.status == reply.status
    ensures r.Failure? ==> r.error.AlbumNotFound? || r.error.RateLimited? || r.error.HttpError?
  {
    if reply.status == NotFoundStatus then Failure(AlbumNotFound)
    else if reply.status == TooManyRequestsStatus then Failure(RateLimited)
    else if reply.status >= BadRequestStatus then Failure(HttpError(reply.status))
    else Success(reply.body)
  }
}
