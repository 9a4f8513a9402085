/**
  The ownership-ledger handlers of api/galleries.go, behind the
  authentication middleware.
 */
module Galleries {
  import opened Wrappers
  import opened Ints
  import opened Errors
  import opened Models
  import opened Http
  import opened Paging

  /** ListGalleriesByIdRequest (key: owner id) and ListGalleriesByItemIdRequest (key: item id). */
  datatype KeyPageRequest = KeyPageRequest(key: int64, pageId: int32, pageSize: int32)

  /** The tags `required,min=1` on the key and the page, `required,min=10` on the size. */
  predicate KeyPageValid(req: KeyPageRequest) {
    req.key >= 1 && PageValid(PageRequest(req.pageId, req.pageSize), 10)
  }

  /** GetGalleryApi: a missing gallery is answered with 403, not 404. */
  function GetGalleryApi(input: Input<IdRequest>, getGallery: int64 -> Result<Gallery, DbError>): (run: Run<int64, Gallery>)
    ensures run.call.Some? <==> input.Decoded? && input.value.id != 0
    ensures run.call.None? ==> run.response == Response(StatusBadRequest, None)
    ensures run.call.Some? ==>
      run.call.value == input.value.id && AnswersNoRows(run.response, getGallery(input.value.id), StatusForbidden)
  {
    if input.Undecodable? || input.value.id == 0 then Reject(StatusBadRequest)
    else Serve(input.value.id, getGallery(input.value.id), e => NoRowsStatus(e, StatusForbidden))
  }

  /**
    ListGalleriesByIdApi and ListGalleriesByItemIdApi, which differ only in the
    key they filter on (the owner or the item) and the query they call.
   */
  function ListGalleriesApi(input: Input<KeyPageRequest>, list: FilteredPage<int64> -> Result<seq<Gallery>, DbError>)
    : (run: Run<FilteredPage<int64>, seq<Gallery>>)
    ensures run.call.Some? <==> input.Decoded? && input.value.key >= 1 && input.value.pageId >= 1 && input.value.pageSize >= 10
    ensures run.call.None? ==> run.response == Response(StatusBadRequest, None)
    ensures run.call.Some? ==>
      && run.call.value == FilteredPage(input.value.key, input.value.pageSize, Offset(input.value.pageId, input.value.pageSize))
      && AnswersNoRows(run.response, list(run.call.value), StatusNotFound)
  {
    if input.Undecodable? || !KeyPageValid(input.value) then Reject(StatusBadRequest)
    else
      var req := input.value;
      var arg := FilteredPage(req.key, req.pageSize, Offset(req.pageId, req.pageSize));
      Serve(arg, list(arg), e => NoRowsStatus(e, StatusNotFound))
  }

  /** A page size of 9 is refused, however few galleries there are. */
  lemma SmallPagesRejected(key: int64, pageId: int32, list: FilteredPage<int64> -> Result<seq<Gallery>, DbError>)
    ensures ListGalleriesApi(Decoded(KeyPageRequest(key, pageId, 9)), list) == Reject(StatusBadRequest)
  {
  }
}
