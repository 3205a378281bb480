/**
 * LocationServices (API/Services/Location/LocationServices.cs): the Location
 * store that reports failure by throwing instead of through the response
 * envelope. A thrown exception is an `Outcome` here; whatever the method
 * wrote before the throw stays written.
 */
module LocationServices {
  import opened Optional
  import opened Store

  /**
   * What a call can throw: the service's own `Exception(message)`, the
   * `NullReferenceException` of reading a member of a null argument, and the
   * `InvalidOperationException` that `Max` throws on an empty store.
   */
  datatype Fault = Thrown(message: string) | NullReference | NoElements

  datatype Outcome<T> = Done(value: T) | Raised(fault: Fault)

  /** The body of an update request: the id of the record and its new Name and Wkt. */
  datatype UpdateLocationDto = UpdateLocationDto(id: int, fields: Dto)

  class LocationServices {
    var locations: seq<Location>

    ghost predicate Valid()
      reads this
    {
      DistinctIds(locations)
    }

    constructor ()
      ensures Valid() && locations == LocationSeed()
    {
      locations := LocationSeed();
    }

    /** `ToArray()`: a new array holding the current store. */
    method GetLocations() returns (a: array<Location>)
      ensures fresh(a) && a[..] == locations
    {
      a := new Location[|locations|];
      for i := 0 to |locations|
        invariant a[..i] == locations[..i]
      {
        a[i] := locations[i];
      }
    }

    /** The first record with that id, or the exception "Location not found". */
    function GetLocationById(id: int): (r: Outcome<Location>)
      reads this
      ensures !HasId(locations, id) <==> r == Raised(Thrown("Location not found"))
      ensures HasId(locations, id) ==>
        var k := FindFirst(locations, id);
        && k < |locations| && r == Done(locations[k])
        && forall j :: 0 <= j < k ==> locations[j].id != id
    {
      var location := FirstWithId(locations, id);
      if location.None? then Raised(Thrown("Location not found"))
      else Done(location.value)
    }

    method DeleteLocation(id: int) returns (r: Outcome<()>)
      requires Valid()
      modifies this
      ensures Valid()
      ensures !HasId(old(locations), id) ==> r == Raised(Thrown("Location not found")) && locations == old(locations)
      ensures HasId(old(locations), id) ==>
        var k := FindFirst(old(locations), id);
        && locations == old(locations)[..k] + old(locations)[k + 1..]
        && r == Done(())
    {
      var location := FirstWithId(locations, id);
      if location.None? {
        return Raised(Thrown("Location not found"));
      }
      RemovesExactlyOne(locations, FindFirst(locations, id));
      WithoutIdKeepsDistinct(locations, id);
      locations := WithoutId(locations, id);
      r := Done(());
    }

    /** The null check comes first; on an empty store `Max` throws before anything is written. */
    method AddLocation(dto: Option<Dto>) returns (r: Outcome<()>)
      requires Valid()
      modifies this
      ensures Valid()
      ensures dto.None? ==> r == Raised(Thrown("Location cannot be null")) && locations == old(locations)
      ensures dto.Some? && old(locations) == [] ==> r == Raised(NoElements) && locations == []
      ensures dto.Some? && old(locations) != [] ==>
        && r == Done(())
        && locations == old(locations) + [Record(NextId(old(locations)), dto.value.name, dto.value.wkt)]
    {
      if dto.None? {
        return Raised(Thrown("Location cannot be null"));
      }
      if locations == [] {
        return Raised(NoElements);
      }
      var newId := AppendRecord(dto.value);
      AppendOneKeepsDistinct(old(locations), Record(newId, dto.value.name, dto.value.wkt));
      r := Done(());
    }

    /** One step of the batch loop: the request is stored with id max+1. */
    method AppendRecord(dto: Dto) returns (newId: int)
      requires locations != []
      modifies this
      ensures newId == NextId(old(locations))
      ensures locations == old(locations) + [Record(newId, dto.name, dto.wkt)]
    {
      newId := MaxId(locations) + 1;
      locations := locations + [Record(newId, dto.name, dto.wkt)];
    }

    /**
     * The loop of AddLocations once its first request is known to be
     * non-null and the store non-empty: the requests are appended in turn
     * until a null one, whose position is `added`.
     */
    method AppendUpToNull(dtos: seq<Option<Dto>>) returns (added: nat)
      requires Valid() && locations != []
      modifies this
      ensures Valid()
      ensures added == FirstNull(dtos)
      ensures locations == old(locations) + Stamp(NextId(old(locations)), Present(dtos[..added]))
    {
      ghost var base := locations;
      ghost var ds := Present(dtos[..FirstNull(dtos)]);
      added := 0;
      while added < |dtos| && dtos[added].Some?
        invariant added <= |ds|
        invariant locations == base + Stamp(NextId(base), ds[..added])
      {
        assert ds[added] == dtos[added].value;
        BatchStep(base, locations, ds, added);
        var newId := AppendRecord(dtos[added].value);
        added := added + 1;
      }
      assert ds[..added] == ds;
      AppendKeepsDistinct(base, ds);
    }

    /**
     * `Length` is read before the null check, so a null batch throws a
     * NullReferenceException. The requests before the first null one are
     * appended with ids max+1; the null one then throws with those
     * records kept.
     */
    method AddLocations(dtos: Option<seq<Option<Dto>>>) returns (r: Outcome<()>)
      requires Valid()
      modifies this
      ensures Valid()
      ensures dtos.None? ==> r == Raised(NullReference) && locations == old(locations)
      ensures dtos == Some([]) ==> r == Raised(Thrown("No locations provided")) && locations == old(locations)
      ensures dtos.Some? && dtos.value != [] && dtos.value[0].Some? && old(locations) == [] ==>
        r == Raised(NoElements) && locations == []
      ensures dtos.Some? && dtos.value != [] && (dtos.value[0].None? || old(locations) != []) ==>
        var k := FirstNull(dtos.value);
        && locations == old(locations) + (if k == 0 then [] else Stamp(NextId(old(locations)), Present(dtos.value[..k])))
        && r == if k < |dtos.value| then Raised(Thrown("Location cannot be null")) else Done(())
    {
      if dtos.None? {
        return Raised(NullReference);
      }
      if |dtos.value| == 0 {
        return Raised(Thrown("No locations provided"));
      }
      if dtos.value[0].None? {
        return Raised(Thrown("Location cannot be null"));
      }
      if locations == [] {
        return Raised(NoElements);
      }
      var added := AppendUpToNull(dtos.value);
      if added < |dtos.value| {
        return Raised(Thrown("Location cannot be null"));
      }
      r := Done(());
    }

    /**
     * `Id` is read before the null check, so a null request throws a
     * NullReferenceException and the "Location cannot be null" check can
     * never fire.
     */
    method UpdateLocation(dto: Option<UpdateLocationDto>) returns (r: Outcome<()>)
      requires Valid()
      modifies this
      ensures Valid()
      ensures dto.None? ==> r == Raised(NullReference) && locations == old(locations)
      ensures dto.Some? && dto.value.id <= 0 ==> r == Raised(Thrown("Invalid location ID")) && locations == old(locations)
      ensures dto.Some? && dto.value.id > 0 && !HasId(old(locations), dto.value.id) ==>
        r == Raised(Thrown("Location not found")) && locations == old(locations)
      ensures dto.Some? && dto.value.id > 0 && HasId(old(locations), dto.value.id) ==>
        var k := FindFirst(old(locations), dto.value.id);
        && locations == old(locations)[k := WithFields(old(locations)[k], dto.value.fields)]
        && r == Done(())
    {
      if dto.None? {
        return Raised(NullReference);
      }
      var id := dto.value.id;
      if id <= 0 {
        return Raised(Thrown("Invalid location ID"));
      }
      var k := FindFirst(locations, id);
      if k == |locations| {
        return Raised(Thrown("Location not found"));
      }
      var existing := WithFields(locations[k], dto.value.fields);
      UpdateChangesOnlyThatRecord(locations, k, dto.value.fields);
      locations := Replaced(locations, id, existing);
      r := Done(());
    }
  }

  /**
   * A batch whose second request is null throws, yet its first request is
   * already stored under id 4.
   */
  method PartialWriteScenario() returns (r: Outcome<()>, stored: seq<Location>)
    ensures r == Raised(Thrown("Location cannot be null"))
    ensures |stored| == 4 && stored[3] == Record(4, "Kept", "POINT(4 4)")
  {
    var service := new LocationServices();
    r := service.AddLocations(Some([Some(Dto("Kept", "POINT(4 4)")), None, Some(Dto("Lost", "POINT(5 5)"))]));
    stored := service.locations;
  }
}
