/**
 * ArrayLocationServices (API/Services/Location/ArrayLocationServices.cs): the
 * Location store over an array field, with pages of a fixed size of ten and
 * no upper bound on a batch.
 */
module ArrayLocations {
  import opened Optional
  import opened Envelope
  import opened Store
  import opened Paging

  /** GetLocations always uses pages of ten. */
  const PageSize: int := 10

  /**
   * The page GetLocations returns as the C# code computes it: the skip count
   * `10 * (pageNumber - 1)` is evaluated in unchecked 32-bit `int`. While
   * that count fits in 32 bits it is the intended window of ten.
   */
  function PageAsWritten(s: seq<Location>, pageNumber: int): (r: seq<Location>)
    requires IsInt32(pageNumber)
    ensures |r| <= PageSize
    ensures IsInt32(pageNumber - 1) && IsInt32(PageSize * (pageNumber - 1)) ==>
      r == Window(s, PageSize * (pageNumber - 1), PageSize)
  {
    Window(s, Wrap32(PageSize * Wrap32(pageNumber - 1)), PageSize)
  }

  /**
   * Page 214748366 starts 2147483650 records in, far past the three seeded
   * locations, yet the 32-bit product wraps to -2147483646, `Skip` treats it
   * as 0 and the whole store comes back instead of "not found".
   */
  lemma OverflowedPageIsFirstPage()
    ensures Window(LocationSeed(), PageSize * (214748366 - 1), PageSize) == []
    ensures PageAsWritten(LocationSeed(), 214748366) == LocationSeed()
  {
    assert Wrap32(PageSize * 214748365) == -2147483646;
  }

  /**
   * The opposite wrap: page -214748364 should give the first page like every
   * page below 1, but `10 * -214748365` wraps to 2147483646, `Skip` passes
   * the whole store and the code answers "not found".
   */
  lemma NegativePageWrapsPastEnd()
    ensures Window(LocationSeed(), PageSize * (-214748364 - 1), PageSize) == LocationSeed()
    ensures PageAsWritten(LocationSeed(), -214748364) == []
  {
    assert Wrap32(-214748364 - 1) == -214748365;
    assert Wrap32(PageSize * -214748365) == 2147483646;
  }

  class ArrayLocationServices {
    var locations: seq<Location>

    ghost predicate Valid()
      reads this
    {
      DistinctIds(locations)
    }

    constructor ()
      ensures Valid() && locations == LocationSeed()
    {
      locations := LocationSeed();
    }

    /**
     * The whole store without a page number; otherwise the window of ten
     * records starting at `10 * (pageNumber - 1)`. The page number is not
     * range-checked: a negative skip count skips nothing, so page 0 and
     * below give the first page. The skip count is exact here; the code's
     * 32-bit product is PageAsWritten.
     */
    function GetLocations(pageNumber: Option<int>): (r: Response<seq<Location>>)
      reads this
      ensures locations == [] ==> r == Fail("No locations found.", NotFound)
      ensures locations != [] && pageNumber.None? ==>
        r == Success(locations, Some("Locations retrieved successfully."))
      ensures locations != [] && pageNumber.Some? && pageNumber.value <= 1 ==>
        r == Success(Page(locations, 1, PageSize), Some("Locations retrieved successfully."))
      ensures locations != [] && pageNumber.Some? && pageNumber.value >= 1 ==>
        var first := PageSize * (pageNumber.value - 1);
        && (first >= |locations| ==> r == Fail("No locations found for the specified page.", NotFound))
        && (first < |locations| ==>
              r == Success(Page(locations, pageNumber.value, PageSize), Some("Locations retrieved successfully.")))
    {
      if locations == [] then Fail("No locations found.", NotFound)
      else if pageNumber.Some? then
        var page := Window(locations, PageSize * (pageNumber.value - 1), PageSize);
        if page == [] then Fail("No locations found for the specified page.", NotFound)
        else Success(page, Some("Locations retrieved successfully."))
      else Success(locations, Some("Locations retrieved successfully."))
    }

    /** A missing id fails with the default status, BadRequest, not NotFound. */
    function GetLocationById(id: int): (r: Response<Location>)
      reads this
      ensures id <= 0 ==> r == Fail("Location ID must be greater than zero.", BadRequest)
      ensures id > 0 && !HasId(locations, id) ==> r == Fail("Location not found.")
      ensures id > 0 && HasId(locations, id) ==>
        r.isSuccess && r.status == OK && r.data.Some? && r.data.value.id == id && r.data.value in locations
    {
      if id <= 0 then Fail("Location ID must be greater than zero.", BadRequest)
      else
        var location := FirstWithId(locations, id);
        if location.None? then Fail("Location not found.")
        else Success(location.value, Some("Location retrieved successfully."))
    }

    method DeleteLocation(id: int) returns (r: Response<bool>)
      requires Valid()
      modifies this
      ensures Valid()
      ensures id <= 0 ==> r == Fail("Location ID must be greater than zero.", BadRequest) && locations == old(locations)
      ensures id > 0 && !HasId(old(locations), id) ==>
        r == Fail("Location not found.", NotFound) && locations == old(locations)
      ensures id > 0 && HasId(old(locations), id) ==>
        var k := FindFirst(old(locations), id);
        && locations == old(locations)[..k] + old(locations)[k + 1..]
        && r == Success(true, Some("Location deleted successfully."), NoContent)
    {
      if id <= 0 {
        return Fail("Location ID must be greater than zero.", BadRequest);
      }
      var location := FirstWithId(locations, id);
      if location.None? {
        return Fail("Location not found.", NotFound);
      }
      RemovesExactlyOne(locations, FindFirst(locations, id));
      WithoutIdKeepsDistinct(locations, id);
      locations := WithoutId(locations, id);
      r := Success(true, Some("Location deleted successfully."), NoContent);
    }

    /** An empty store makes `Max` throw, so a request that reaches it needs a non-empty store. */
    method AddLocation(dto: Option<Dto>) returns (r: Response<int>)
      requires Valid()
      requires dto.Some? ==> locations != []
      modifies this
      ensures Valid()
      ensures dto.None? ==> r == Fail("Location cannot be null", BadRequest) && locations == old(locations)
      ensures dto.Some? ==>
        && r == Success(NextId(old(locations)), Some("Location added successfully."))
        && locations == old(locations) + [Record(NextId(old(locations)), dto.value.name, dto.value.wkt)]
    {
      if dto.None? {
        return Fail("Location cannot be null", BadRequest);
      }
      var newId := MaxId(locations) + 1;
      var newLocation := Record(newId, dto.value.name, dto.value.wkt);
      AppendOneKeepsDistinct(locations, newLocation);
      locations := locations + [newLocation];
      r := Success(newLocation.id, Some("Location added successfully."));
    }

    /** One step of the batch loop: the request is stored with id max+1. */
    method AppendRecord(dto: Dto) returns (newId: int)
      requires locations != []
      modifies this
      ensures newId == NextId(old(locations))
      ensures locations == old(locations) + [Record(newId, dto.name, dto.wkt)]
    {
      newId := MaxId(locations) + 1;
      locations := locations + [Record(newId, dto.name, dto.wkt)];
    }

    /** The loop of AddLocations: each request in turn is appended with id max+1. */
    method AppendBatch(dtos: seq<Dto>) returns (newLocationIds: seq<int>)
      requires Valid() && locations != []
      modifies this
      ensures Valid()
      ensures locations == old(locations) + Stamp(NextId(old(locations)), dtos)
      ensures newLocationIds == Ids(Stamp(NextId(old(locations)), dtos))
    {
      ghost var base := locations;
      newLocationIds := [];
      for i := 0 to |dtos|
        invariant locations == base + Stamp(NextId(base), dtos[..i])
        invariant newLocationIds == Ids(Stamp(NextId(base), dtos[..i]))
      {
        BatchStep(base, locations, dtos, i);
        var newId := AppendRecord(dtos[i]);
        newLocationIds := newLocationIds + [newId];
      }
      assert dtos[..|dtos|] == dtos;
      AppendKeepsDistinct(base, dtos);
    }

    /** Unlike the Feature store there is no cap on the batch size. */
    method AddLocations(dtos: seq<Dto>) returns (r: Response<seq<int>>)
      requires Valid()
      requires dtos != [] ==> locations != []
      modifies this
      ensures Valid()
      ensures dtos == [] ==> r == Fail("No locations to add.", NotFound) && locations == old(locations)
      ensures dtos != [] ==>
        && locations == old(locations) + Stamp(NextId(old(locations)), dtos)
        && r == Success(Ids(Stamp(NextId(old(locations)), dtos)), Some("Locations added successfully."))
    {
      if |dtos| == 0 {
        return Fail("No locations to add.", NotFound);
      }
      var newLocationIds := AppendBatch(dtos);
      r := Success(newLocationIds, Some("Locations added successfully."));
    }

    method UpdateLocation(id: int, dto: Option<Dto>) returns (r: Response<Location>)
      requires Valid()
      modifies this
      ensures Valid()
      ensures id <= 0 ==> r == Fail("Location ID must be greater than zero.", BadRequest) && locations == old(locations)
      ensures id > 0 && dto.None? ==> r == Fail("Location cannot be null.") && locations == old(locations)
      ensures id > 0 && dto.Some? && !HasId(old(locations), id) ==>
        r == Fail("Location not found.", NotFound) && locations == old(locations)
      ensures id > 0 && dto.Some? && HasId(old(locations), id) ==>
        var k := FindFirst(old(locations), id);
        var updated := WithFields(old(locations)[k], dto.value);
        && locations == old(locations)[k := updated]
        && r == Success(updated, Some("Location updated successfully."))
    {
      if id <= 0 {
        return Fail("Location ID must be greater than zero.", BadRequest);
      }
      if dto.None? {
        return Fail("Location cannot be null.");
      }
      var k := FindFirst(locations, id);
      if k == |locations| {
        return Fail("Location not found.", NotFound);
      }
      var existing := WithFields(locations[k], dto.value);
      UpdateChangesOnlyThatRecord(locations, k, dto.value);
      locations := Replaced(locations, id, existing);
      r := Success(existing, Some("Location updated successfully."));
    }
  }
}
