/**
  The item handlers of api/items.go. Each is a function of the decoded
  request and of the store query it calls (a function from the query's
  parameters to the store's reply); it yields the call it made and the
  response it wrote.
 */
module Items {
  import opened Wrappers
  import opened Ints
  import opened Errors
  import opened Models
  import opened Http
  import opened Paging
  import Random

  datatype CreateItemRequest = CreateItemRequest(itemName: string, rating: int32, itemUrl: string, categoryId: int32)

  datatype CreateItemParams = CreateItemParams(itemName: string, rating: int32, itemUrl: string, categoryId: int32)

  datatype UpdateItemRequest = UpdateItemRequest(id: int64, itemName: string, rating: int32, itemUrl: string, categoryId: int32)

  datatype UpdateItemParams = UpdateItemParams(id: int64, itemName: string, rating: int32, itemUrl: string, categoryId: int32)

  datatype ListItemByCategoryIdRequest = ListItemByCategoryIdRequest(categoryId: int32, pageId: int32, pageSize: int32)

  const ItemDeleted: string := "Item deleted"

  /**
    The binding tags the item fields carry in both the create and the update
    request: name `required,alphanum`, rating `required,min=1,max=7`, URL
    `required`, category `required`.
   */
  predicate ItemFieldsValid(itemName: string, rating: int32, itemUrl: string, categoryId: int32) {
    |itemName| > 0 && Alphanum(itemName) && 1 <= rating <= 7 && |itemUrl| > 0 && categoryId != 0
  }

  /** CreateItemApi: a unique violation (a duplicate name) is answered with 403, every other error with 500. */
  function CreateItemApi(input: Input<CreateItemRequest>, createItem: CreateItemParams -> Result<Item, DbError>): (run: Run<CreateItemParams, Item>)
    ensures run.call.Some? <==>
      input.Decoded? && ItemFieldsValid(input.value.itemName, input.value.rating, input.value.itemUrl, input.value.categoryId)
    ensures run.call.None? ==> run.response == Response(StatusBadRequest, None)
    ensures run.call.Some? ==>
      && run.call.value == CreateItemParams(input.value.itemName, input.value.rating, input.value.itemUrl, input.value.categoryId)
      && AnswersPq(run.response, createItem(run.call.value), {UniqueViolation})
  {
    if input.Undecodable? then Reject(StatusBadRequest)
    else
      var req := input.value;
      if !ItemFieldsValid(req.itemName, req.rating, req.itemUrl, req.categoryId) then Reject(StatusBadRequest)
      else
        var arg := CreateItemParams(req.itemName, req.rating, req.itemUrl, req.categoryId);
        Serve(arg, createItem(arg), e => PqStatus(e, {UniqueViolation}))
  }

  /** GetItemApi: a missing item is 404. */
  function GetItemApi(input: Input<IdRequest>, getItem: int64 -> Result<Item, DbError>): (run: Run<int64, Item>)
    ensures run.call.Some? <==> input.Decoded? && input.value.id != 0
    ensures run.call.None? ==> run.response == Response(StatusBadRequest, None)
    ensures run.call.Some? ==>
      run.call.value == input.value.id && AnswersNoRows(run.response, getItem(input.value.id), StatusNotFound)
  {
    if input.Undecodable? || input.value.id == 0 then Reject(StatusBadRequest)
    else Serve(input.value.id, getItem(input.value.id), e => NoRowsStatus(e, StatusNotFound))
  }

  /** ListItemByCategoryIdApi: category `required`, page `required,min=1`, size `required,min=1`. */
  function ListItemByCategoryIdApi(input: Input<ListItemByCategoryIdRequest>, list: FilteredPage<int32> -> Result<seq<Item>, DbError>)
    : (run: Run<FilteredPage<int32>, seq<Item>>)
    ensures run.call.Some? <==>
      input.Decoded? && input.value.categoryId != 0 && input.value.pageId >= 1 && input.value.pageSize >= 1
    ensures run.call.None? ==> run.response == Response(StatusBadRequest, None)
    ensures run.call.Some? ==>
      && run.call.value == FilteredPage(input.value.categoryId, input.value.pageSize, Offset(input.value.pageId, input.value.pageSize))
      && AnswersNoRows(run.response, list(run.call.value), StatusNotFound)
  {
    if input.Undecodable? then Reject(StatusBadRequest)
    else
      var req := input.value;
      if req.categoryId == 0 || !PageValid(PageRequest(req.pageId, req.pageSize), 1) then Reject(StatusBadRequest)
      else
        var arg := FilteredPage(req.categoryId, req.pageSize, Offset(req.pageId, req.pageSize));
        Serve(arg, list(arg), e => NoRowsStatus(e, StatusNotFound))
  }

  /**
    ListItemsByCategoryIdApi, ListItemsByIdApi, ListItemsByItemNameApi and
    ListItemsByRatingApi, which differ only in the list query they call:
    page `required,min=1`, size `required,min=1`, and ErrNoRows is 404.
   */
  function ListItemsApi(input: Input<PageRequest>, list: LimitOffset -> Result<seq<Item>, DbError>): (run: Run<LimitOffset, seq<Item>>)
    ensures run.call.Some? <==> input.Decoded? && input.value.pageId >= 1 && input.value.pageSize >= 1
    ensures run.call.None? ==> run.response == Response(StatusBadRequest, None)
    ensures run.call.Some? ==>
      && run.call.value == LimitOffset(input.value.pageSize, Offset(input.value.pageId, input.value.pageSize))
      && AnswersNoRows(run.response, list(run.call.value), StatusNotFound)
  {
    if input.Undecodable? || !PageValid(input.value, 1) then Reject(StatusBadRequest)
    else
      var arg := PageParams(input.value);
      Serve(arg, list(arg), e => NoRowsStatus(e, StatusNotFound))
  }

  /** UpdateItemApi: the item fields as for creation plus `ID required`; a missing item is 404. */
  function UpdateItemApi(input: Input<UpdateItemRequest>, updateItem: UpdateItemParams -> Result<Item, DbError>): (run: Run<UpdateItemParams, Item>)
    ensures run.call.Some? <==>
      input.Decoded? && input.value.id != 0
      && ItemFieldsValid(input.value.itemName, input.value.rating, input.value.itemUrl, input.value.categoryId)
    ensures run.call.None? ==> run.response == Response(StatusBadRequest, None)
    ensures run.call.Some? ==>
      && run.call.value == UpdateItemParams(input.value.id, input.value.itemName, input.value.rating, input.value.itemUrl, input.value.categoryId)
      && AnswersNoRows(run.response, updateItem(run.call.value), StatusNotFound)
  {
    if input.Undecodable? then Reject(StatusBadRequest)
    else
      var req := input.value;
      if req.id == 0 || !ItemFieldsValid(req.itemName, req.rating, req.itemUrl, req.categoryId) then Reject(StatusBadRequest)
      else
        var arg := UpdateItemParams(req.id, req.itemName, req.rating, req.itemUrl, req.categoryId);
        Serve(arg, updateItem(arg), e => NoRowsStatus(e, StatusNotFound))
  }

  /**
    DeleteItemApi: unlike every other handler, a request that fails to bind is
    answered with 404; success is 200 with a fixed message.
   */
  function DeleteItemApi(input: Input<IdRequest>, deleteItem: int64 -> Option<DbError>): (run: Run<int64, string>)
    ensures run.call.Some? <==> input.Decoded? && input.value.id != 0
    ensures run.call.None? ==> run.response == Response(StatusNotFound, None)
    ensures run.call.Some? ==> run.call.value == input.value.id
    ensures run.call.Some? && deleteItem(input.value.id).None? ==> run.response == Response(StatusOK, Some(ItemDeleted))
    ensures run.call.Some? && deleteItem(input.value.id).Some? ==>
      run.response.data.None? && run.response.status == (if deleteItem(input.value.id) == Some(ErrNoRows) then StatusNotFound else StatusInternalServerError)
  {
    if input.Undecodable? || input.value.id == 0 then Reject(StatusNotFound)
    else
      var id := input.value.id;
      match deleteItem(id)
      case None => Run(Some(id), Response(StatusOK, Some(ItemDeleted)))
      case Some(e) => Run(Some(id), Response(NoRowsStatus(e, StatusNotFound), None))
  }

  // ---------------------------------------------------------------------------

  /** A request whose id is missing and an item the store does not have get the same answer from DeleteItemApi. */
  lemma DeleteItemMissingLooksUnbound(id: int64, deleteItem: int64 -> Option<DbError>)
    requires id != 0 && deleteItem(id) == Some(ErrNoRows)
    ensures DeleteItemApi(Decoded(IdRequest(id)), deleteItem).response == DeleteItemApi(Decoded(IdRequest(0)), deleteItem).response
  {
  }

  /** A foreign-key violation (an unknown category) is not among the codes CreateItemApi answers with 403; it is a 500. */
  lemma CreateItemUnknownCategoryIs500(req: CreateItemRequest, createItem: CreateItemParams -> Result<Item, DbError>)
    requires ItemFieldsValid(req.itemName, req.rating, req.itemUrl, req.categoryId)
    requires createItem(CreateItemParams(req.itemName, req.rating, req.itemUrl, req.categoryId)) == Err(PqError(ForeignKeyViolation))
    ensures CreateItemApi(Decoded(req), createItem).response == Response(StatusInternalServerError, None)
  {
  }

  /** The names RandomItemName generates contain '-', so `alphanum` rejects them. */
  lemma GeneratedItemNameRejected(name: string, req: CreateItemRequest, createItem: CreateItemParams -> Result<Item, DbError>)
    requires |name| == 11 && name[..6] == "srrrs-"
    requires req.itemName == name
    ensures !Alphanum(name)
    ensures CreateItemApi(Decoded(req), createItem) == Reject(StatusBadRequest)
  {
    assert name[5] == name[..6][5] == '-';
  }

  /** The names RandomString generates pass `required,alphanum` as soon as they are non-empty. */
  lemma GeneratedStringAccepted(name: string)
    requires |name| > 0
    requires forall i :: 0 <= i < |name| ==> Random.IsLowerLetter(name[i])
    ensures |name| > 0 && Alphanum(name)
  {
  }
}
