/**
 * ArrayFeatureService (API/Services/Feature/ArrayFeatureServices.cs): the
 * features live in an array field that every write replaces with a new array.
 */
module ArrayFeatures {
  import opened Optional
  import opened Envelope
  import opened Store
  import opened Paging

  /** The largest batch AddFeatures accepts. */
  const MaxBatch: nat := 25

  /** The fifteen features the service starts with: ids 1..15. */
  function Seed(): (s: seq<Feature>)
    ensures |s| == 15 && DistinctIds(s)
    ensures forall i :: 0 <= i < |s| ==> s[i].id == i + 1
  {
    Numbered("Feature", 15)
  }

  /**
   * The page GetFeatures returns as the C# code computes it: the skip count
   * `pageSize * (pageNumber - 1)` is evaluated in unchecked 32-bit `int`.
   * While that count fits in 32 bits it is the intended page.
   */
  function PageAsWritten(s: seq<Feature>, pageNumber: int, pageSize: int): (r: seq<Feature>)
    requires IsInt32(pageNumber) && IsInt32(pageSize) && pageNumber >= 1 && pageSize >= 1
    ensures |r| <= pageSize
    ensures IsInt32(pageSize * (pageNumber - 1)) ==> r == Page(s, pageNumber, pageSize)
  {
    Window(s, Wrap32(pageSize * Wrap32(pageNumber - 1)), pageSize)
  }

  /**
   * Page 1073741825 of size 2 starts 2^31 records in, far past the end, yet the
   * 32-bit product wraps to -2^31, `Skip` treats it as 0 and the first two
   * features come back instead of "not found".
   */
  lemma OverflowedPageIsFirstPage()
    ensures Page(Seed(), 1073741825, 2) == []
    ensures PageAsWritten(Seed(), 1073741825, 2) == Seed()[..2]
  {
    assert Wrap32(1073741825 - 1) == 1073741824;
    assert Wrap32(2 * 1073741824) == Int32Min;
  }

  class ArrayFeatureService {
    var features: seq<Feature>

    ghost predicate Valid()
      reads this
    {
      DistinctIds(features)
    }

    constructor ()
      ensures Valid() && features == Seed()
    {
      features := Seed();
    }

    /** An empty store makes `Max` throw, so a request that reaches it needs a non-empty store. */
    method AddFeature(dto: Option<Dto>) returns (r: Response<int>)
      requires Valid()
      requires dto.Some? ==> features != []
      modifies this
      ensures Valid()
      ensures dto.None? ==> r == Fail("Feature cannot be null", BadRequest) && features == old(features)
      ensures dto.Some? ==>
        && r == Success(NextId(old(features)), Some("Feature added successfully."))
        && features == old(features) + [Record(NextId(old(features)), dto.value.name, dto.value.wkt)]
    {
      if dto.None? {
        return Fail("Feature cannot be null", BadRequest);
      }
      var newId := MaxId(features) + 1;
      var newFeature := Record(newId, dto.value.name, dto.value.wkt);
      AppendOneKeepsDistinct(features, newFeature);
      features := features + [newFeature];
      r := Success(newFeature.id, Some("Feature added successfully."));
    }

    /** One step of the batch loop: the request is stored with id max+1. */
    method AppendRecord(dto: Dto) returns (newId: int)
      requires features != []
      modifies this
      ensures newId == NextId(old(features))
      ensures features == old(features) + [Record(newId, dto.name, dto.wkt)]
    {
      newId := MaxId(features) + 1;
      features := features + [Record(newId, dto.name, dto.wkt)];
    }

    /** The loop of AddFeatures: each request in turn is appended with id max+1. */
    method AppendBatch(dtos: seq<Dto>) returns (newFeatureIds: seq<int>)
      requires Valid() && features != []
      modifies this
      ensures Valid()
      ensures features == old(features) + Stamp(NextId(old(features)), dtos)
      ensures newFeatureIds == Ids(Stamp(NextId(old(features)), dtos))
    {
      ghost var base := features;
      newFeatureIds := [];
      for i := 0 to |dtos|
        invariant features == base + Stamp(NextId(base), dtos[..i])
        invariant newFeatureIds == Ids(Stamp(NextId(base), dtos[..i]))
      {
        BatchStep(base, features, dtos, i);
        var newId := AppendRecord(dtos[i]);
        newFeatureIds := newFeatureIds + [newId];
      }
      assert dtos[..|dtos|] == dtos;
      AppendKeepsDistinct(base, dtos);
    }

    method AddFeatures(dtos: seq<Dto>) returns (r: Response<seq<int>>)
      requires Valid()
      requires 1 <= |dtos| <= MaxBatch ==> features != []
      modifies this
      ensures Valid()
      ensures |dtos| == 0 ==> r == Fail("No features to add.", NotFound) && features == old(features)
      ensures |dtos| > MaxBatch ==>
        r == Fail("Cannot add more than 25 features at once.", BadRequest) && features == old(features)
      ensures 1 <= |dtos| <= MaxBatch ==>
        && features == old(features) + Stamp(NextId(old(features)), dtos)
        && r == Success(Ids(Stamp(NextId(old(features)), dtos)), Some("Features added successfully."))
    {
      if |dtos| == 0 {
        return Fail("No features to add.", NotFound);
      }
      if |dtos| > MaxBatch {
        return Fail("Cannot add more than 25 features at once.", BadRequest);
      }
      var newFeatureIds := AppendBatch(dtos);
      r := Success(newFeatureIds, Some("Features added successfully."));
    }

    /**
     * The whole store when either page argument is missing; otherwise the
     * records `[pageSize * (pageNumber - 1), pageSize * pageNumber)` of it,
     * with the skip count exact; the code's 32-bit product is PageAsWritten.
     */
    function GetFeatures(pageNumber: Option<int>, pageSize: Option<int>): (r: Response<seq<Feature>>)
      reads this
      ensures features == [] ==> r == Fail("No features found.", NotFound)
      ensures features != [] && (pageNumber.None? || pageSize.None?) ==>
        r == Success(features, Some("Features retrieved successfully."))
      ensures features != [] && pageNumber.Some? && pageSize.Some? && (pageNumber.value < 1 || pageSize.value < 1) ==>
        r == Fail("Page number and size must be greater than zero.", BadRequest)
      ensures features != [] && pageNumber.Some? && pageSize.Some? && pageNumber.value >= 1 && pageSize.value >= 1 ==>
        var first := Offset(pageNumber.value, pageSize.value);
        var end := first + pageSize.value;
        && (first >= |features| ==> r == Fail("No features found for the specified page.", NotFound))
        && (first < |features| ==>
              r == Success(features[first..if end <= |features| then end else |features|],
                           Some("Features retrieved successfully.")))
    {
      if features == [] then Fail("No features found.", NotFound)
      else if pageNumber.Some? && pageSize.Some? then
        if pageNumber.value < 1 || pageSize.value < 1 then
          Fail("Page number and size must be greater than zero.", BadRequest)
        else
          var page := Page(features, pageNumber.value, pageSize.value);
          if page == [] then Fail("No features found for the specified page.", NotFound)
          else Success(page, Some("Features retrieved successfully."))
      else Success(features, Some("Features retrieved successfully."))
    }

    /** A missing id fails with the default status, BadRequest, not NotFound. */
    function GetFeatureById(id: int): (r: Response<Feature>)
      reads this
      ensures id <= 0 ==> r == Fail("Feature ID must be greater than zero.", BadRequest)
      ensures id > 0 && !HasId(features, id) ==> r == Fail("Feature not found.")
      ensures id > 0 && HasId(features, id) ==>
        r.isSuccess && r.status == OK && r.data.Some? && r.data.value.id == id && r.data.value in features
    {
      if id <= 0 then Fail("Feature ID must be greater than zero.", BadRequest)
      else
        var feature := FirstWithId(features, id);
        if feature.None? then Fail("Feature not found.")
        else Success(feature.value, Some("Feature retrieved successfully."))
    }

    method UpdateFeature(id: int, dto: Option<Dto>) returns (r: Response<Feature>)
      requires Valid()
      modifies this
      ensures Valid()
      ensures id <= 0 ==> r == Fail("Feature ID must be greater than zero.", BadRequest) && features == old(features)
      ensures id > 0 && dto.None? ==> r == Fail("Feature cannot be null.") && features == old(features)
      ensures id > 0 && dto.Some? && !HasId(old(features), id) ==>
        r == Fail("Feature not found.", NotFound) && features == old(features)
      ensures id > 0 && dto.Some? && HasId(old(features), id) ==>
        var k := FindFirst(old(features), id);
        var updated := WithFields(old(features)[k], dto.value);
        && features == old(features)[k := updated]
        && r == Success(updated, Some("Feature updated successfully."))
    {
      if id <= 0 {
        return Fail("Feature ID must be greater than zero.", BadRequest);
      }
      if dto.None? {
        return Fail("Feature cannot be null.");
      }
      var k := FindFirst(features, id);
      if k == |features| {
        return Fail("Feature not found.", NotFound);
      }
      var existing := WithFields(features[k], dto.value);
      UpdateChangesOnlyThatRecord(features, k, dto.value);
      features := Replaced(features, id, existing);
      r := Success(existing, Some("Feature updated successfully."));
    }

    method DeleteFeature(id: int) returns (r: Response<bool>)
      requires Valid()
      modifies this
      ensures Valid()
      ensures id <= 0 ==> r == Fail("Feature ID must be greater than zero.", BadRequest) && features == old(features)
      ensures id > 0 && !HasId(old(features), id) ==> r == Fail("Feature not found.", NotFound) && features == old(features)
      ensures id > 0 && HasId(old(features), id) ==>
        var k := FindFirst(old(features), id);
        && features == old(features)[..k] + old(features)[k + 1..]
        && r == Success(true, Some("Feature deleted successfully."), NoContent)
    {
      if id <= 0 {
        return Fail("Feature ID must be greater than zero.", BadRequest);
      }
      var feature := FirstWithId(features, id);
      if feature.None? {
        return Fail("Feature not found.", NotFound);
      }
      RemovesExactlyOne(features, FindFirst(features, id));
      WithoutIdKeepsDistinct(features, id);
      features := WithoutId(features, id);
      r := Success(true, Some("Feature deleted successfully."), NoContent);
    }
  }

  /** Feature 15 is the last seeded record, and without it the largest id is 14. */
  lemma LastSeededRemoved()
    ensures HasId(Seed(), 15) && FindFirst(Seed(), 15) == 14
    ensures Seed()[..14] + Seed()[15..] == Seed()[..14]
    ensures Seed()[..14] != [] && NextId(Seed()[..14]) == 15
  {
    LastNumberedRemoved(Seed());
  }

  /** Deleting feature 15 from the initial store and adding one hands out id 15 again. */
  method IdReuseScenario() returns (reused: int)
    ensures reused == 15
  {
    var service := new ArrayFeatureService();
    LastSeededRemoved();
    var deleted := service.DeleteFeature(15);
    var added := service.AddFeature(Some(Dto("Again", "POINT(0 0)")));
    reused := added.data.value;
  }
}
