/**
  The gacha handlers of api/gachas.go. CreateGachaApi draws a random item
  and writes two rows, a gacha record and a ledger row, each in its own
  statement: it is a method on the store. The other two handlers make one
  query and are functions.
 */
module Gachas {
  import opened Wrappers
  import opened Ints
  import opened Errors
  import opened Models
  import opened Http
  import opened Paging
  import opened Store
  import Random

  datatype CreateGachaRequest = CreateGachaRequest(accountId: int64)

  /** Which of CreateGachaApi's four store calls fail (None: the call runs). */
  datatype GachaFaults = GachaFaults(
    listItems: Option<DbError>,
    getItem: Option<DbError>,
    createGacha: Option<DbError>,
    createGallery: Option<DbError>)

  const NoGachaFaults := GachaFaults(None, None, None, None)

  /** The catalogue page the draw is taken over: `Limit: 1000, Offset: 0`. */
  const CatalogueLimit: nat := 1000

  /** The error codes CreateGachaApi answers with 403. */
  const ForbiddenCodes: set<string> := {UniqueViolation, ForeignKeyViolation}

  /** The tables CreateGachaApi writes. */
  datatype Draws = Draws(gachas: seq<Gacha>, galleries: seq<Gallery>)

  datatype GachaRun = GachaRun(response: Response<Gallery>, state: Draws)

  /** `len(items) + 1`, the bound passed to Int63n: the number of listed items, plus one. */
  function DrawBound(items: seq<Item>): (n: nat)
    ensures 1 <= n <= CatalogueLimit + 1
  {
    |Window(items, CatalogueLimit, 0)| + 1
  }

  /**
    What CreateGachaApi does once the random number is `draw`: the draw is used
    as an item id; the gacha is recorded for the requesting account, then a
    ledger row gives that item to it. Each step stops at its first error, and
    the two writes are separate statements, not one transaction.
   */
  function CreateGachaOutcome(items: seq<Item>, st: Draws, input: Input<CreateGachaRequest>, f: GachaFaults, draw: int, now: Time): GachaRun {
    if input.Undecodable? || input.value.accountId < 1 then GachaRun(Response(StatusAccepted, None), st)
    else if f.listItems.Some? then GachaRun(Response(StatusInternalServerError, None), st)
    else match GetItemCall(items, draw, f.getItem)
      case Err(_) => GachaRun(Response(StatusInternalServerError, None), st)
      case Ok(item) =>
        if f.createGacha.Some? then GachaRun(Response(PqStatus(f.createGacha.value, ForbiddenCodes), None), st)
        else
          var gacha := NewGacha(st.gachas, CreateGachaParams(input.value.accountId, item.id), now);
          var st1 := st.(gachas := st.gachas + [gacha]);
          if f.createGallery.Some? then GachaRun(Response(PqStatus(f.createGallery.value, ForbiddenCodes), None), st1)
          else
            var gallery := NewGallery(st1.galleries, CreateGalleryParams(gacha.accountId, gacha.itemId), now);
            GachaRun(Response(StatusOK, Some(gallery)), st1.(galleries := st1.galleries + [gallery]))
  }

  /**
    CreateGachaApi on the store. `draw` is the number Int63n returned (0 when
    the handler stops before drawing); the new state and the response are
    those of CreateGachaOutcome for that draw.
   */
  method CreateGachaApi(store: SqlStore, input: Input<CreateGachaRequest>, f: GachaFaults, now: Time)
    returns (resp: Response<Gallery>, ghost draw: int)
    modifies store`gachas, store`galleries
    ensures 0 <= draw < DrawBound(store.items)
    ensures GachaRun(resp, Draws(store.gachas, store.galleries))
         == CreateGachaOutcome(store.items, Draws(old(store.gachas), old(store.galleries)), input, f, draw, now)
  {
    draw := 0;
    if input.Undecodable? || input.value.accountId < 1 {
      return Response(StatusAccepted, None), draw;
    }
    var req := input.value;
    var items, err := store.ListItemsById(CatalogueLimit, 0, f.listItems);
    if err.Some? {
      return Response(StatusInternalServerError, None), draw;
    }
    var randomNum := Random.Int63n(|items| + 1);
    draw := randomNum;
    var item;
    item, err := store.GetItem(randomNum, f.getItem);
    if err.Some? {
      return Response(StatusInternalServerError, None), draw;
    }
    var gacha;
    gacha, err := store.CreateGacha(CreateGachaParams(req.accountId, item.id), f.createGacha, now);
    if err.Some? {
      return Response(PqStatus(err.value, ForbiddenCodes), None), draw;
    }
    var gallery;
    gallery, err := store.CreateGallery(CreateGalleryParams(gacha.accountId, gacha.itemId), f.createGallery, now);
    if err.Some? {
      return Response(PqStatus(err.value, ForbiddenCodes), None), draw;
    }
    resp := Response(StatusOK, Some(gallery));
  }

  // ---------------------------------------------------------------------------

  /**
    A gacha that answers 200 has drawn the item whose id is the random number,
    recorded one gacha and appended one ledger row, both for the requesting
    account and that item; the response is the new ledger row.
   */
  lemma GachaSuccess(items: seq<Item>, st: Draws, input: Input<CreateGachaRequest>, f: GachaFaults, draw: int, now: Time)
    ensures var r := CreateGachaOutcome(items, st, input, f, draw, now);
      r.response.status == StatusOK ==>
        && input.Decoded? && f == NoGachaFaults
        && FindItem(items, draw).Some?
        && r.state.gachas == st.gachas + [Gacha(|st.gachas| + 1, input.value.accountId, draw, now)]
        && r.state.galleries == st.galleries + [Gallery(|st.galleries| + 1, input.value.accountId, draw, now, now)]
        && r.response.data == Some(r.state.galleries[|st.galleries|])
  {
  }

  /** A request without a positive account id is answered 202 Accepted, and nothing is written. */
  lemma BadRequestAccepted(items: seq<Item>, st: Draws, accountId: int64, f: GachaFaults, draw: int, now: Time)
    requires accountId < 1
    ensures CreateGachaOutcome(items, st, Decoded(CreateGachaRequest(accountId)), f, draw, now) == GachaRun(Response(StatusAccepted, None), st)
  {
  }

  /**
    A failure before the first write writes nothing: a failed catalogue read or
    item lookup is 500, and a failed CreateGacha is 403 for a unique or
    foreign-key violation and 500 otherwise, with CreateGallery never called.
   */
  lemma EarlyFailuresWriteNothing(items: seq<Item>, st: Draws, accountId: int64, f: GachaFaults, draw: int, now: Time)
    requires accountId >= 1
    ensures var r := CreateGachaOutcome(items, st, Decoded(CreateGachaRequest(accountId)), f, draw, now);
      && (f.listItems.Some? ==> r == GachaRun(Response(StatusInternalServerError, None), st))
      && (f.listItems.None? && GetItemCall(items, draw, f.getItem).Err? ==> r == GachaRun(Response(StatusInternalServerError, None), st))
      && (f.listItems.None? && GetItemCall(items, draw, f.getItem).Ok? && f.createGacha.Some? ==>
            && r.state == st && r.response.data.None?
            && (IsPqErrorIn(f.createGacha.value, {UniqueViolation, ForeignKeyViolation}) ==> r.response.status == StatusForbidden)
            && (!IsPqErrorIn(f.createGacha.value, {UniqueViolation, ForeignKeyViolation}) ==> r.response.status == StatusInternalServerError))
  {
  }

  /**
    The two writes are not atomic: when CreateGallery fails, the gacha record
    of the account and the drawn item stays although the account received no
    item; the answer is 403 for a unique or foreign-key violation, 500 otherwise.
   */
  lemma GalleryFailureKeepsGacha(items: seq<Item>, st: Draws, accountId: int64, e: DbError, draw: int, now: Time)
    requires accountId >= 1 && FindItem(items, draw).Some?
    ensures var r := CreateGachaOutcome(items, st, Decoded(CreateGachaRequest(accountId)), GachaFaults(None, None, None, Some(e)), draw, now);
      && r.response.data.None?
      && r.state.gachas == st.gachas + [Gacha(|st.gachas| + 1, accountId, draw, now)]
      && r.state.galleries == st.galleries
      && (IsPqErrorIn(e, {UniqueViolation, ForeignKeyViolation}) ==> r.response.status == StatusForbidden)
      && (!IsPqErrorIn(e, {UniqueViolation, ForeignKeyViolation}) ==> r.response.status == StatusInternalServerError)
  {
  }

  /** Only statuses 200, 202, 403 and 500 can come back, and the tables change only on 200 or on a failed CreateGallery. */
  lemma GachaOutcomes(items: seq<Item>, st: Draws, input: Input<CreateGachaRequest>, f: GachaFaults, draw: int, now: Time)
    ensures var r := CreateGachaOutcome(items, st, input, f, draw, now);
      && r.response.status in {StatusOK, StatusAccepted, StatusForbidden, StatusInternalServerError}
      && (r.state != st ==> r.response.status == StatusOK || (f.createGacha.None? && f.createGallery.Some?))
  {
  }

  /** A catalogue whose ids are 1, 2, ..., n. */
  ghost predicate SequentialIds(items: seq<Item>) {
    forall i :: 0 <= i < |items| ==> items[i].id == i + 1
  }

  /**
    Over a catalogue with ids 1 to n (n <= 1000), the draw ranges over 0 to n:
    every item can be drawn, but the draw 0 names no item and the request fails
    with 500, one time in n + 1.
   */
  lemma SequentialCatalogueDraws(items: seq<Item>, st: Draws, accountId: int64, draw: int, now: Time)
    requires SequentialIds(items) && |items| <= CatalogueLimit
    requires accountId >= 1
    requires 0 <= draw < DrawBound(items)
    ensures var r := CreateGachaOutcome(items, st, Decoded(CreateGachaRequest(accountId)), NoGachaFaults, draw, now);
      && (draw == 0 ==> r == GachaRun(Response(StatusInternalServerError, None), st))
      && (draw != 0 ==> r.response.status == StatusOK && r.response.data.value.itemId == draw)
  {
    if draw == 0 {
      assert FindItem(items, 0).None?;
    } else {
      assert items[draw - 1].id == draw;
      assert FindItem(items, draw).Some?;
    }
  }

  // ---------------------------------------------------------------------------

  /** GetGachaApi: a missing gacha is 404. */
  function GetGachaApi(input: Input<IdRequest>, getGacha: int64 -> Result<Gacha, DbError>): (run: Run<int64, Gacha>)
    ensures run.call.Some? <==> input.Decoded? && input.value.id != 0
    ensures run.call.None? ==> run.response == Response(StatusBadRequest, None)
    ensures run.call.Some? ==>
      run.call.value == input.value.id && AnswersNoRows(run.response, getGacha(input.value.id), StatusNotFound)
  {
    if input.Undecodable? || input.value.id == 0 then Reject(StatusBadRequest)
    else Serve(input.value.id, getGacha(input.value.id), e => NoRowsStatus(e, StatusNotFound))
  }

  /** ListGachaApi: page `required,min=1`, size `required,min=10`; ErrNoRows is 404. */
  function ListGachaApi(input: Input<PageRequest>, listGachas: LimitOffset -> Result<seq<Gacha>, DbError>): (run: Run<LimitOffset, seq<Gacha>>)
    ensures run.call.Some? <==> input.Decoded? && input.value.pageId >= 1 && input.value.pageSize >= 10
    ensures run.call.None? ==> run.response == Response(StatusBadRequest, None)
    ensures run.call.Some? ==>
      && run.call.value == LimitOffset(input.value.pageSize, Offset(input.value.pageId, input.value.pageSize))
      && AnswersNoRows(run.response, listGachas(run.call.value), StatusNotFound)
  {
    if input.Undecodable? || !PageValid(input.value, 10) then Reject(StatusBadRequest)
    else
      var arg := PageParams(input.value);
      Serve(arg, listGachas(arg), e => NoRowsStatus(e, StatusNotFound))
  }
}
