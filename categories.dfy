/** The category handlers of api/categories.go. */
module Categories {
  import opened Wrappers
  import opened Errors
  import opened Models
  import opened Http
  import opened Paging

  /** CreateCategoryApi: the name is `required`; a unique or foreign-key violation is 403. */
  function CreateCategoryApi(input: Input<string>, createCategory: string -> Result<Category, DbError>): (run: Run<string, Category>)
    ensures run.call.Some? <==> input.Decoded? && |input.value| > 0
    ensures run.call.None? ==> run.response == Response(StatusBadRequest, None)
    ensures run.call.Some? ==>
      run.call.value == input.value && AnswersPq(run.response, createCategory(input.value), {UniqueViolation, ForeignKeyViolation})
  {
    if input.Undecodable? || |input.value| == 0 then Reject(StatusBadRequest)
    else Serve(input.value, createCategory(input.value), e => PqStatus(e, {UniqueViolation, ForeignKeyViolation}))
  }

  /** GetCategoryApi: looked up by name from the URI; a missing category is 404. */
  function GetCategoryApi(input: Input<string>, getCategory: string -> Result<Category, DbError>): (run: Run<string, Category>)
    ensures run.call.Some? <==> input.Decoded? && |input.value| > 0
    ensures run.call.None? ==> run.response == Response(StatusBadRequest, None)
    ensures run.call.Some? ==>
      run.call.value == input.value && AnswersNoRows(run.response, getCategory(input.value), StatusNotFound)
  {
    if input.Undecodable? || |input.value| == 0 then Reject(StatusBadRequest)
    else Serve(input.value, getCategory(input.value), e => NoRowsStatus(e, StatusNotFound))
  }

  /** ListCategoryApi: page `required,min=1`, size `required,min=10`; ErrNoRows is 404. */
  function ListCategoryApi(input: Input<PageRequest>, listCategories: LimitOffset -> Result<seq<Category>, DbError>)
    : (run: Run<LimitOffset, seq<Category>>)
    ensures run.call.Some? <==> input.Decoded? && input.value.pageId >= 1 && input.value.pageSize >= 10
    ensures run.call.None? ==> run.response == Response(StatusBadRequest, None)
    ensures run.call.Some? ==>
      && run.call.value == LimitOffset(input.value.pageSize, Offset(input.value.pageId, input.value.pageSize))
      && AnswersNoRows(run.response, listCategories(run.call.value), StatusNotFound)
  {
    if input.Undecodable? || !PageValid(input.value, 10) then Reject(StatusBadRequest)
    else
      var arg := PageParams(input.value);
      Serve(arg, listCategories(arg), e => NoRowsStatus(e, StatusNotFound))
  }
}
