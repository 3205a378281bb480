/**
 * PostgresqlAdonetFeatureServices
 * (API/Services/Feature/PostgresqlAdonetFeatureServices.cs): the Feature
 * service over raw SQL. The database is not modelled: each operation is given
 * what the database answers (the rows a query returns, the affected-row
 * count, the result sets of a batch, a failure) and yields the command it
 * would send, if any, together with its response. Messages are the resource
 * keys the service looks up.
 */
module AdoNetFeatures {
  import opened Optional
  import opened Envelope
  import opened Store
  import opened Paging

  /** The largest batch AddFeatures accepts. */
  const MaxBatch: nat := 25

  /** The SQL statements the service sends, with their parameters. */
  datatype Command =
    | Insert(name: string, wkt: string)
    | InsertBatch(rows: seq<Dto>)
    | SelectPage(offset: int, limit: int)
    | SelectAll
    | SelectById(id: int)
    | UpdateById(id: int, name: string, wkt: string)
    | DeleteById(id: int)

  /** The outcome of a request's guards: a response before any database work, or the command to send. */
  datatype Guarded<T> = Rejected(response: Response<T>) | Send(command: Command)

  /** One call: the command sent to the database (none when a guard rejects the request) and the response. */
  datatype Exchange<T> = Exchange(sent: Option<Command>, response: Response<T>)

  /** The message of .NET's NullReferenceException. */
  const NullReferenceMessage := "Object reference not set to an instance of an object."

  /** A resource message with the cause of an exception filled in. */
  function WithCause(key: string, cause: string): (message: string)
  {
    key + ": " + cause
  }

  /** `RETURNING id`: `rows` are the ids the insert returned. */
  function AddFeature(dto: Option<Dto>, rows: seq<int>): (x: Exchange<int>)
    ensures dto.None? ==> x == Exchange(None, Fail("FeatureCannotBeNull", BadRequest))
    ensures dto.Some? ==> x.sent == Some(Insert(dto.value.name, dto.value.wkt))
    ensures dto.Some? && rows == [] ==> x.response == Fail("FailedToAddFeature", InternalServerError)
    ensures dto.Some? && rows != [] ==> x.response == Success(rows[0], Some("FeatureAddedSuccessfully"))
  {
    if dto.None? then Exchange(None, Fail("FeatureCannotBeNull", BadRequest))
    else
      var sent := Some(Insert(dto.value.name, dto.value.wkt));
      if rows == [] then Exchange(sent, Fail("FailedToAddFeature", InternalServerError))
      else Exchange(sent, Success(rows[0], Some("FeatureAddedSuccessfully")))
  }

  /** The ids of all result sets, in the order they arrive. */
  function Flatten(sets: seq<seq<int>>): (r: seq<int>)
    ensures forall i, j :: 0 <= i < |sets| && 0 <= j < |sets[i]| ==> sets[i][j] in r
    ensures forall id :: id in r ==> exists i :: 0 <= i < |sets| && id in sets[i]
  {
    if sets == [] then []
    else
      var front := sets[..|sets| - 1];
      assert forall i :: 0 <= i < |front| ==> front[i] == sets[i];
      Flatten(front) + sets[|sets| - 1]
  }

  lemma {:induction false} FlattenConcat(a: seq<seq<int>>, b: seq<seq<int>>)
    ensures Flatten(a + b) == Flatten(a) + Flatten(b)
  {
    if b != [] {
      assert (a + b)[..|a + b| - 1] == a + b[..|b| - 1];
      FlattenConcat(a, b[..|b| - 1]);
    } else {
      assert a + b == a;
    }
  }

  /** Rows 0..j of result set i come right after the rows of the sets before it. */
  lemma FlattenPrefix(sets: seq<seq<int>>, i: nat, j: nat)
    requires i < |sets| && j <= |sets[i]|
    ensures |Flatten(sets[..i])| + j <= |Flatten(sets)|
    ensures Flatten(sets[..i]) + sets[i][..j] == Flatten(sets)[..|Flatten(sets[..i])| + j]
  {
    assert sets == sets[..i + 1] + sets[i + 1..];
    FlattenConcat(sets[..i + 1], sets[i + 1..]);
    assert sets[..i + 1][..i] == sets[..i];
  }

  /**
   * An exception raised while the batch runs: after `afterRows` ids have
   * been read (0: when the batch is executed; the number of ids or more:
   * at commit), with the exception's message.
   */
  datatype Failure = Failure(afterRows: nat, message: string)

  /** What the database does with a batch: the result sets it returns and the failure, if one strikes. */
  datatype BatchReply = BatchReply(sets: seq<seq<int>>, failure: Option<Failure>)

  /** What became of the batch's transaction. */
  datatype TxOutcome = NotOpened | Committed | RolledBack

  /**
   * The read loop of AddFeatures: `do { while (Read) ids += id } while
   * (NextResult)`. It stops at the row where the failure strikes, if that
   * row exists.
   */
  method CollectIds(sets: seq<seq<int>>, failure: Option<Failure>) returns (ids: seq<int>, failed: bool)
    requires failure.Some? ==> failure.value.afterRows > 0
    ensures failed <==> failure.Some? && failure.value.afterRows < |Flatten(sets)|
    ensures !failed ==> ids == Flatten(sets)
    ensures failed ==> ids == Flatten(sets)[..failure.value.afterRows]
  {
    ids := [];
    var i := 0;
    while i < |sets|
      invariant i <= |sets|
      invariant ids == Flatten(sets[..i])
      invariant failure.Some? ==> failure.value.afterRows >= |ids|
    {
      var j := 0;
      while j < |sets[i]|
        invariant j <= |sets[i]|
        invariant ids == Flatten(sets[..i]) + sets[i][..j]
        invariant failure.Some? ==> failure.value.afterRows >= |ids|
      {
        FlattenPrefix(sets, i, j);
        if failure.Some? && failure.value.afterRows == |ids| {
          FlattenPrefix(sets, i, j + 1);
          return ids, true;
        }
        ids := ids + [sets[i][j]];
        j := j + 1;
      }
      assert sets[i][..j] == sets[i];
      assert sets[..i + 1][..i] == sets[..i];
      i := i + 1;
    }
    assert sets[..i] == sets;
    failed := false;
  }

  /**
   * A null or empty batch and a batch over 25 are refused before a
   * connection is opened. Otherwise the batch runs in a transaction: a null
   * request throws while the commands are built, so nothing is sent; no
   * rows in the first result, or an exception, rolls it back; only when
   * every id has been read is it committed.
   */
  method AddFeatures(dtos: Option<seq<Option<Dto>>>, reply: BatchReply) returns (x: Exchange<seq<int>>, tx: TxOutcome)
    ensures dtos.None? || dtos == Some([]) ==>
      x == Exchange(None, Fail("NoFeaturesToAdd", NotFound)) && tx == NotOpened
    ensures dtos.Some? && |dtos.value| > MaxBatch ==>
      x == Exchange(None, Fail("CannotAddMoreThan25Features", BadRequest)) && tx == NotOpened
    ensures dtos.Some? && 0 < |dtos.value| <= MaxBatch && FirstNull(dtos.value) < |dtos.value| ==>
      x == Exchange(None, Fail(WithCause("FailedToAddFeatures", NullReferenceMessage), InternalServerError))
      && tx == RolledBack
    ensures dtos.Some? && 0 < |dtos.value| <= MaxBatch && FirstNull(dtos.value) == |dtos.value| ==>
      && x.sent == Some(InsertBatch(Present(dtos.value)))
      && (reply.failure.Some? && reply.failure.value.afterRows == 0 ==>
            x.response == Fail(WithCause("FailedToAddFeatures", reply.failure.value.message), InternalServerError)
            && tx == RolledBack)
      && (reply.failure.None? || reply.failure.value.afterRows > 0 ==>
            && (reply.sets == [] || reply.sets[0] == [] ==>
                  x.response == Fail("FailedToAddFeatures", InternalServerError) && tx == RolledBack)
            && (reply.sets != [] && reply.sets[0] != [] && reply.failure.Some? ==>
                  x.response == Fail(WithCause("FailedToAddFeatures", reply.failure.value.message), InternalServerError)
                  && tx == RolledBack)
            && (reply.sets != [] && reply.sets[0] != [] && reply.failure.None? ==>
                  x.response == Success(Flatten(reply.sets), Some("FeaturesAddedSuccessfully"))
                  && tx == Committed))
  {
    if dtos.None? || |dtos.value| == 0 {
      return Exchange(None, Fail("NoFeaturesToAdd", NotFound)), NotOpened;
    }
    if |dtos.value| > MaxBatch {
      return Exchange(None, Fail("CannotAddMoreThan25Features", BadRequest)), NotOpened;
    }
    if FirstNull(dtos.value) < |dtos.value| {
      // reading Name of a null element throws inside the try, before the batch is executed
      return Exchange(None, Fail(WithCause("FailedToAddFeatures", NullReferenceMessage), InternalServerError)), RolledBack;
    }
    var sent := Some(InsertBatch(Present(dtos.value)));
    if reply.failure.Some? && reply.failure.value.afterRows == 0 {
      return Exchange(sent, Fail(WithCause("FailedToAddFeatures", reply.failure.value.message), InternalServerError)), RolledBack;
    }
    if reply.sets == [] || reply.sets[0] == [] {
      return Exchange(sent, Fail("FailedToAddFeatures", InternalServerError)), RolledBack;
    }
    var newFeaturesIds, failed := CollectIds(reply.sets, reply.failure);
    if reply.failure.Some? {
      // the failure struck while reading (`failed`) or, every id read, at commit
      return Exchange(sent, Fail(WithCause("FailedToAddFeatures", reply.failure.value.message), InternalServerError)), RolledBack;
    }
    x, tx := Exchange(sent, Success(newFeaturesIds, Some("FeaturesAddedSuccessfully"))), Committed;
  }

  /**
   * The request guards of GetFeatures: page number and size come together
   * or not at all, and both are at least 1. A paged query skips
   * `pageSize * (pageNumber - 1)` rows, computed in 32-bit `int`.
   */
  function FeaturesQuery(pageNumber: Option<int>, pageSize: Option<int>): (g: Guarded<seq<Feature>>)
    requires pageNumber.Some? ==> IsInt32(pageNumber.value)
    requires pageSize.Some? ==> IsInt32(pageSize.value)
    ensures pageNumber.Some? != pageSize.Some? ==>
      g == Rejected(Fail("PageNumberAndSizeMustBeProvidedTogether", BadRequest))
    ensures pageNumber.Some? && pageSize.Some? && (pageNumber.value < 1 || pageSize.value < 1) ==>
      g == Rejected(Fail("PageNumberAndSizeMustBeGreaterThanZero", BadRequest))
    ensures pageNumber.Some? && pageSize.Some? && pageNumber.value >= 1 && pageSize.value >= 1 ==>
      g == Send(SelectPage(Wrap32(pageSize.value * (pageNumber.value - 1)), pageSize.value))
    ensures pageNumber.None? && pageSize.None? ==> g == Send(SelectAll)
  {
    if pageNumber.Some? || pageSize.Some? then
      if pageNumber.None? || pageSize.None? then
        Rejected(Fail("PageNumberAndSizeMustBeProvidedTogether", BadRequest))
      else if pageNumber.value < 1 || pageSize.value < 1 then
        Rejected(Fail("PageNumberAndSizeMustBeGreaterThanZero", BadRequest))
      else
        Send(SelectPage(Wrap32(pageSize.value * (pageNumber.value - 1)), pageSize.value))
    else
      Send(SelectAll)
  }

  /**
   * When the offset fits in 32 bits, a database that answers `OFFSET o
   * LIMIT l` over a table with `Skip(o).Take(l)` returns exactly page
   * `pageNumber` of that table.
   */
  lemma PagedQueryReadsPage(table: seq<Feature>, pageNumber: int, pageSize: int)
    requires IsInt32(pageNumber) && IsInt32(pageSize) && pageNumber >= 1 && pageSize >= 1
    requires IsInt32(pageSize * (pageNumber - 1))
    ensures FeaturesQuery(Some(pageNumber), Some(pageSize)).Send?
    ensures var c := FeaturesQuery(Some(pageNumber), Some(pageSize)).command;
      c.SelectPage? && Window(table, c.offset, c.limit) == Page(table, pageNumber, pageSize)
  {
  }

  /**
   * `rows` are what the database returns for the query. An empty answer is
   * NotFound, paged or not; otherwise the rows are copied one by one.
   */
  method GetFeatures(pageNumber: Option<int>, pageSize: Option<int>, rows: seq<Feature>) returns (x: Exchange<seq<Feature>>)
    requires pageNumber.Some? ==> IsInt32(pageNumber.value)
    requires pageSize.Some? ==> IsInt32(pageSize.value)
    ensures FeaturesQuery(pageNumber, pageSize).Rejected? ==>
      x == Exchange(None, FeaturesQuery(pageNumber, pageSize).response)
    ensures FeaturesQuery(pageNumber, pageSize).Send? ==>
      var c := FeaturesQuery(pageNumber, pageSize).command;
      && x.sent == Some(c)
      && (rows == [] && c.SelectPage? ==> x.response == Fail("NoFeaturesFoundForSpecifiedPage", NotFound))
      && (rows == [] && c == SelectAll ==> x.response == Fail("NoFeaturesFound", NotFound))
      && (rows != [] ==> x.response == Success(rows, Some("FeaturesRetrievedSuccessfully")))
  {
    var query := FeaturesQuery(pageNumber, pageSize);
    if query.Rejected? {
      return Exchange(None, query.response);
    }
    if rows == [] {
      var key := if query.command.SelectPage? then "NoFeaturesFoundForSpecifiedPage" else "NoFeaturesFound";
      return Exchange(Some(query.command), Fail(key, NotFound));
    }
    var features: seq<Feature> := [];
    var i := 0;
    while i < |rows|
      invariant i <= |rows|
      invariant features == rows[..i]
    {
      features := features + [rows[i]];
      i := i + 1;
    }
    assert features == rows;
    x := Exchange(Some(query.command), Success(features, Some("FeaturesRetrievedSuccessfully")));
  }

  /** `rows` are what `WHERE id = @id` returns; the first is the answer. */
  function GetFeatureById(id: int, rows: seq<Feature>): (x: Exchange<Feature>)
    ensures id <= 0 ==> x == Exchange(None, Fail("FeatureIdMustBeGreaterThanZero", BadRequest))
    ensures id > 0 ==> x.sent == Some(SelectById(id))
    ensures id > 0 && rows == [] ==> x.response == Fail("FeatureNotFound", NotFound)
    ensures id > 0 && rows != [] ==> x.response == Success(rows[0], Some("FeatureRetrievedSuccessfully"))
  {
    if id <= 0 then Exchange(None, Fail("FeatureIdMustBeGreaterThanZero", BadRequest))
    else if rows == [] then Exchange(Some(SelectById(id)), Fail("FeatureNotFound", NotFound))
    else Exchange(Some(SelectById(id)), Success(rows[0], Some("FeatureRetrievedSuccessfully")))
  }

  /** The id guard comes before the null guard; `rows` are what `RETURNING id, name, wkt` gives back. */
  function UpdateFeature(id: int, dto: Option<Dto>, rows: seq<Feature>): (x: Exchange<Feature>)
    ensures id <= 0 ==> x == Exchange(None, Fail("FeatureIdMustBeGreaterThanZero", BadRequest))
    ensures id > 0 && dto.None? ==> x == Exchange(None, Fail("FeatureCannotBeNull", BadRequest))
    ensures id > 0 && dto.Some? ==> x.sent == Some(UpdateById(id, dto.value.name, dto.value.wkt))
    ensures id > 0 && dto.Some? && rows == [] ==> x.response == Fail("FeatureNotFound", NotFound)
    ensures id > 0 && dto.Some? && rows != [] ==> x.response == Success(rows[0], Some("FeatureUpdatedSuccessfully"))
  {
    if id <= 0 then Exchange(None, Fail("FeatureIdMustBeGreaterThanZero", BadRequest))
    else if dto.None? then Exchange(None, Fail("FeatureCannotBeNull", BadRequest))
    else
      var sent := Some(UpdateById(id, dto.value.name, dto.value.wkt));
      if rows == [] then Exchange(sent, Fail("FeatureNotFound", NotFound))
      else Exchange(sent, Success(rows[0], Some("FeatureUpdatedSuccessfully")))
  }

  /** `affected` is the count `ExecuteNonQuery` reports. */
  function DeleteFeature(id: int, affected: int): (x: Exchange<bool>)
    ensures id <= 0 ==> x == Exchange(None, Fail("FeatureIdMustBeGreaterThanZero", BadRequest))
    ensures id > 0 ==> x.sent == Some(DeleteById(id))
    ensures id > 0 && affected == 0 ==> x.response == Fail("FeatureNotFound", NotFound)
    ensures id > 0 && affected != 0 ==>
      x.response == Success(true, Some("FeatureDeletedSuccessfully"), NoContent)
  {
    if id <= 0 then Exchange(None, Fail("FeatureIdMustBeGreaterThanZero", BadRequest))
    else if affected == 0 then Exchange(Some(DeleteById(id)), Fail("FeatureNotFound", NotFound))
    else Exchange(Some(DeleteById(id)), Success(true, Some("FeatureDeletedSuccessfully"), NoContent))
  }

  /** A request refused by a guard never reaches the database, and is always answered with BadRequest or NotFound. */
  lemma {:induction false} RejectedRequestsSendNothing(id: int, dto: Option<Dto>, rows: seq<Feature>, affected: int)
    ensures id <= 0 ==>
      && GetFeatureById(id, rows).sent == None && GetFeatureById(id, rows).response.status == BadRequest
      && UpdateFeature(id, dto, rows).sent == None && UpdateFeature(id, dto, rows).response.status == BadRequest
      && DeleteFeature(id, affected).sent == None && DeleteFeature(id, affected).response.status == BadRequest
    ensures GetFeatureById(id, rows).sent == None <==> id <= 0
    ensures DeleteFeature(id, affected).sent == None <==> id <= 0
    ensures UpdateFeature(id, dto, rows).sent == None <==> id <= 0 || dto.None?
  {
  }
}
