/**
 * StringLocationServices (API/Services/Location/StringLocationServices.cs):
 * the Location store without paging. A batch may hold null requests, and
 * AddLocations stops at the first one with the earlier records already
 * appended.
 */
module StringLocations {
  import opened Optional
  import opened Envelope
  import opened Store

  class StringLocationServices {
    var locations: seq<Location>

    ghost predicate Valid()
      reads this
    {
      DistinctIds(locations)
    }

    constructor ()
      ensures Valid() && locations == LocationSeed()
    {
      locations := LocationSeed();
    }

    /** The store is never null here, so listing never fails, not even on an empty store. */
    function GetLocations(): (r: Response<seq<Location>>)
      reads this
      ensures r.isSuccess && r.status == OK
      ensures r.data == Some(locations)
    {
      Success(locations, Some("Locations retrieved successfully."))
    }

    /** No range check on the id: a missing id fails with the default status, BadRequest. */
    function GetLocationById(id: int): (r: Response<Location>)
      reads this
      ensures !HasId(locations, id) ==> r == Fail("Location not found.")
      ensures HasId(locations, id) ==>
        r.isSuccess && r.status == OK && r.data.Some? && r.data.value.id == id && r.data.value in locations
    {
      var location := FirstWithId(locations, id);
      if location.None? then Fail("Location not found.")
      else Success(location.value, Some("Location retrieved successfully."))
    }

    method DeleteLocation(id: int) returns (r: Response<bool>)
      requires Valid()
      modifies this
      ensures Valid()
      ensures !HasId(old(locations), id) ==> r == Fail("Location not found.", NotFound) && locations == old(locations)
      ensures HasId(old(locations), id) ==>
        var k := FindFirst(old(locations), id);
        && locations == old(locations)[..k] + old(locations)[k + 1..]
        && r == Success(true, Some("Location deleted successfully."), NoContent)
    {
      var location := FirstWithId(locations, id);
      if location.None? {
        return Fail("Location not found.", NotFound);
      }
      RemovesExactlyOne(locations, FindFirst(locations, id));
      WithoutIdKeepsDistinct(locations, id);
      locations := WithoutId(locations, id);
      r := Success(true, Some("Location deleted successfully."), NoContent);
    }

    /** An empty store makes `Max` throw, so a request that reaches it needs a non-empty store. */
    method AddLocation(dto: Option<Dto>) returns (r: Response<int>)
      requires Valid()
      requires dto.Some? ==> locations != []
      modifies this
      ensures Valid()
      ensures dto.None? ==> r == Fail("Location cannot be null", BadRequest) && locations == old(locations)
      ensures dto.Some? ==>
        && r == Success(NextId(old(locations)), Some("Location added successfully."))
        && locations == old(locations) + [Record(NextId(old(locations)), dto.value.name, dto.value.wkt)]
    {
      if dto.None? {
        return Fail("Location cannot be null", BadRequest);
      }
      var newId := MaxId(locations) + 1;
      var newLocation := Record(newId, dto.value.name, dto.value.wkt);
      AppendOneKeepsDistinct(locations, newLocation);
      locations := locations + [newLocation];
      r := Success(newLocation.id, Some("Location added successfully."));
    }

    /** One step of the batch loop: the request is stored with id max+1. */
    method AppendRecord(dto: Dto) returns (newId: int)
      requires locations != []
      modifies this
      ensures newId == NextId(old(locations))
      ensures locations == old(locations) + [Record(newId, dto.name, dto.wkt)]
    {
      newId := MaxId(locations) + 1;
      locations := locations + [Record(newId, dto.name, dto.wkt)];
    }

    /**
     * The loop of AddLocations once its first request is known to be
     * non-null: the requests are appended in turn with id max+1 until a null
     * one, whose position is `added`.
     */
    method AppendUpToNull(dtos: seq<Option<Dto>>) returns (newLocationIds: seq<int>, added: nat)
      requires Valid() && locations != []
      modifies this
      ensures Valid()
      ensures added == FirstNull(dtos)
      ensures locations == old(locations) + Stamp(NextId(old(locations)), Present(dtos[..added]))
      ensures newLocationIds == Ids(Stamp(NextId(old(locations)), Present(dtos[..added])))
    {
      ghost var base := locations;
      ghost var ds := Present(dtos[..FirstNull(dtos)]);
      newLocationIds := [];
      added := 0;
      while added < |dtos| && dtos[added].Some?
        invariant added <= |ds|
        invariant locations == base + Stamp(NextId(base), ds[..added])
        invariant newLocationIds == Ids(Stamp(NextId(base), ds[..added]))
      {
        assert ds[added] == dtos[added].value;
        BatchStep(base, locations, ds, added);
        var newId := AppendRecord(dtos[added].value);
        newLocationIds := newLocationIds + [newId];
        added := added + 1;
      }
      assert ds[..added] == ds;
      AppendKeepsDistinct(base, ds);
    }

    /**
     * The requests before the first null one (all of them when there is
     * none) are appended with ids max+1 in input order. A null request then
     * fails the call, but what was appended before it stays.
     */
    method AddLocations(dtos: seq<Option<Dto>>) returns (r: Response<seq<int>>)
      requires Valid()
      requires dtos != [] && dtos[0].Some? ==> locations != []
      modifies this
      ensures Valid()
      ensures dtos == [] ==> r == Fail("No locations to add.", NotFound) && locations == old(locations)
      ensures dtos != [] ==>
        var k := FirstNull(dtos);
        var added := if k == 0 then [] else Stamp(NextId(old(locations)), Present(dtos[..k]));
        && locations == old(locations) + added
        && (k < |dtos| ==> r == Fail("Location cannot be null."))
        && (k == |dtos| ==> r == Success(Ids(added), Some("Locations added successfully.")))
    {
      if |dtos| == 0 {
        return Fail("No locations to add.", NotFound);
      }
      if dtos[0].None? {
        return Fail("Location cannot be null.");
      }
      var newLocationIds, added := AppendUpToNull(dtos);
      if added < |dtos| {
        return Fail("Location cannot be null.");
      }
      r := Success(newLocationIds, Some("Locations added successfully."));
    }

    /** Id and null checks come before the lookup; the id check's message is its own. */
    method UpdateLocation(id: int, dto: Option<Dto>) returns (r: Response<Location>)
      requires Valid()
      modifies this
      ensures Valid()
      ensures id <= 0 ==> r == Fail("Invalid location ID.") && locations == old(locations)
      ensures id > 0 && dto.None? ==> r == Fail("Location cannot be null.") && locations == old(locations)
      ensures id > 0 && dto.Some? && !HasId(old(locations), id) ==>
        r == Fail("Location not found.", NotFound) && locations == old(locations)
      ensures id > 0 && dto.Some? && HasId(old(locations), id) ==>
        var k := FindFirst(old(locations), id);
        var updated := WithFields(old(locations)[k], dto.value);
        && locations == old(locations)[k := updated]
        && r == Success(updated, Some("Location updated successfully."))
    {
      if id <= 0 {
        return Fail("Invalid location ID.");
      }
      if dto.None? {
        return Fail("Location cannot be null.");
      }
      var k := FindFirst(locations, id);
      if k == |locations| {
        return Fail("Location not found.", NotFound);
      }
      var existing := WithFields(locations[k], dto.value);
      UpdateChangesOnlyThatRecord(locations, k, dto.value);
      locations := Replaced(locations, id, existing);
      r := Success(existing, Some("Location updated successfully."));
    }
  }

  /**
   * A batch whose second request is null fails, yet its first request is
   * already stored under id 4.
   */
  method PartialBatchScenario() returns (r: Response<seq<int>>, stored: seq<Location>)
    ensures !r.isSuccess && r.status == BadRequest
    ensures |stored| == 4 && stored[3] == Record(4, "Kept", "POINT(4 4)")
  {
    var service := new StringLocationServices();
    var kept := Dto("Kept", "POINT(4 4)");
    var batch := [Some(kept), None, Some(Dto("Lost", "POINT(5 5)"))];
    assert FirstNull(batch) == 1 && batch[..1] == [Some(kept)];
    assert Stamp(4, Present([Some(kept)])) == [Record(4, kept.name, kept.wkt)];
    r := service.AddLocations(batch);
    stored := service.locations;
  }
}
