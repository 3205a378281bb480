/**
 * What the in-memory Feature and Location services share: the record they
 * keep (API/Models/Feature.cs and the Location entity have the same three
 * fields), id allocation as `Max(x => x.Id) + 1`, and the LINQ operators
 * `FirstOrDefault`, `Where`, `Select` and `Append` as the services use them.
 */
module Store {
  import opened Optional

  datatype Record = Record(id: int, name: string, wkt: string)
  type Feature = Record
  type Location = Record

  /** The body of an add or update request: a name and a WKT string. */
  datatype Dto = Dto(name: string, wkt: string)

  predicate HasId(s: seq<Record>, id: int)
  {
    exists i :: 0 <= i < |s| && s[i].id == id
  }

  /** The invariant every store keeps: no two records share an id. */
  predicate DistinctIds(s: seq<Record>)
  {
    forall i, j :: 0 <= i < j < |s| ==> s[i].id != s[j].id
  }

  function Ids(s: seq<Record>): (r: seq<int>)
    ensures |r| == |s| && forall i :: 0 <= i < |s| ==> r[i] == s[i].id
  {
    if s == [] then [] else Ids(s[..|s| - 1]) + [s[|s| - 1].id]
  }

  lemma IdsSnoc(s: seq<Record>, x: Record)
    ensures Ids(s + [x]) == Ids(s) + [x.id]
  {
    assert (s + [x])[..|s|] == s;
  }

  /**
   * `s.Max(x => x.Id)`; LINQ throws on an empty sequence. The result is the
   * id of some record and no record has a larger one.
   */
  function MaxId(s: seq<Record>): (m: int)
    requires s != []
    ensures HasId(s, m)
    ensures forall i :: 0 <= i < |s| ==> s[i].id <= m
  {
    if |s| == 1 then s[0].id
    else
      var front := s[..|s| - 1];
      var before := MaxId(front);
      assert forall i :: 0 <= i < |front| ==> s[i] == front[i];
      if s[|s| - 1].id > before then s[|s| - 1].id else before
  }

  /**
   * The id the services give a new record: one more than the largest id in
   * the store, so it is not yet in use and the one below it is.
   */
  function NextId(s: seq<Record>): (n: int)
    requires s != []
    ensures !HasId(s, n) && HasId(s, n - 1)
    ensures forall i :: 0 <= i < |s| ==> s[i].id < n
  {
    MaxId(s) + 1
  }

  /** In a store numbered 1, 2, 3, ... the largest id is its length. */
  lemma MaxIdOfNumbered(s: seq<Record>)
    requires s != [] && forall i :: 0 <= i < |s| ==> s[i].id == i + 1
    ensures MaxId(s) == |s|
  {
  }

  /** In a store numbered 1..n, record n is the last one, and without it the largest id is n - 1. */
  lemma LastNumberedRemoved(s: seq<Record>)
    requires |s| >= 2 && forall i :: 0 <= i < |s| ==> s[i].id == i + 1
    ensures HasId(s, |s|) && FindFirst(s, |s|) == |s| - 1
    ensures s[..|s| - 1] + s[|s|..] == s[..|s| - 1]
    ensures s[..|s| - 1] != [] && NextId(s[..|s| - 1]) == |s|
  {
    var n := |s|;
    assert s[n - 1].id == n;
    var k := FindFirst(s, n);
    if k < n {
      assert s[k].id == k + 1;
    }
    assert s[n..] == [];
    MaxIdOfNumbered(s[..n - 1]);
  }

  /** A record given the next id can be appended without a clash. */
  lemma AppendOneKeepsDistinct(s: seq<Record>, x: Record)
    requires s != [] && DistinctIds(s) && x.id == NextId(s)
    ensures DistinctIds(s + [x])
  {
    assert forall i :: 0 <= i < |s| ==> (s + [x])[i] == s[i];
  }

  lemma {:induction false} MaxIdAppend(s: seq<Record>, x: Record)
    requires s != []
    ensures MaxId(s + [x]) == if x.id > MaxId(s) then x.id else MaxId(s)
  {
    assert (s + [x])[..|s|] == s;
  }

  /** `FirstOrDefault(x => x.Id == id)`, as a position: `|s|` when there is no match. */
  function FindFirst(s: seq<Record>, id: int): (k: nat)
    ensures k <= |s|
    ensures k < |s| ==> s[k].id == id
    ensures forall j :: 0 <= j < k ==> s[j].id != id
  {
    if s == [] then 0
    else if s[0].id == id then 0
    else 1 + FindFirst(s[1..], id)
  }

  function FirstWithId(s: seq<Record>, id: int): (r: Option<Record>)
    ensures r.None? <==> !HasId(s, id)
    ensures r.Some? ==> r.value.id == id && r.value in s
    ensures r.Some? ==> FindFirst(s, id) < |s| && r.value == s[FindFirst(s, id)]
  {
    var k := FindFirst(s, id);
    if k < |s| then Some(s[k]) else None
  }

  /** `Where(x => x.Id != id)`. */
  function WithoutId(s: seq<Record>, id: int): (r: seq<Record>)
    ensures forall i :: 0 <= i < |r| ==> r[i].id != id
    ensures !HasId(s, id) ==> r == s
    ensures HasId(s, id) ==> |r| < |s|
  {
    if s == [] then []
    else if s[|s| - 1].id == id then WithoutId(s[..|s| - 1], id)
    else WithoutId(s[..|s| - 1], id) + [s[|s| - 1]]
  }

  /** Exactly the records whose id differs are kept. */
  lemma {:induction false} WithoutIdMembers(s: seq<Record>, id: int)
    ensures forall x :: x in WithoutId(s, id) <==> x in s && x.id != id
  {
    if s != [] {
      WithoutIdMembers(s[..|s| - 1], id);
      assert s == s[..|s| - 1] + [s[|s| - 1]];
    }
  }

  /** Filtering one more record appends it unless it carries the id. */
  lemma WithoutIdSnoc(s: seq<Record>, x: Record, id: int)
    ensures WithoutId(s + [x], id) == WithoutId(s, id) + (if x.id == id then [] else [x])
  {
    assert (s + [x])[..|s|] == s;
  }

  /** Filtering distributes over concatenation: the records kept stay in their order. */
  lemma {:induction false} WithoutIdConcat(a: seq<Record>, b: seq<Record>, id: int)
    ensures WithoutId(a + b, id) == WithoutId(a, id) + WithoutId(b, id)
  {
    if b == [] {
      assert a + b == a;
    } else {
      var front, x := b[..|b| - 1], b[|b| - 1];
      var kept := if x.id == id then [] else [x];
      calc {
        WithoutId(a + b, id);
        { assert a + b == (a + front) + [x]; }
        WithoutId((a + front) + [x], id);
        { WithoutIdSnoc(a + front, x, id); }
        WithoutId(a + front, id) + kept;
        { WithoutIdConcat(a, front, id); }
        (WithoutId(a, id) + WithoutId(front, id)) + kept;
        WithoutId(a, id) + (WithoutId(front, id) + kept);
        { WithoutIdSnoc(front, x, id); assert front + [x] == b; }
        WithoutId(a, id) + WithoutId(b, id);
      }
    }
  }

  /** On a store with distinct ids, deleting the id of record k removes that record and nothing else. */
  lemma {:induction false} RemovesExactlyOne(s: seq<Record>, k: nat)
    requires DistinctIds(s) && k < |s|
    ensures WithoutId(s, s[k].id) == s[..k] + s[k + 1..]
  {
    var id := s[k].id;
    var pre, post := s[..k], s[k + 1..];
    assert s == (pre + [s[k]]) + post;
    assert forall i :: 0 <= i < |pre| ==> pre[i] == s[i];
    assert forall i :: 0 <= i < |post| ==> post[i] == s[k + 1 + i];
    NoMatchKept(pre, id);
    NoMatchKept(post, id);
    WithoutIdSnoc(pre, s[k], id);
    WithoutIdConcat(pre + [s[k]], post, id);
  }

  lemma NoMatchKept(s: seq<Record>, id: int)
    requires forall i :: 0 <= i < |s| ==> s[i].id != id
    ensures WithoutId(s, id) == s
  {
  }

  lemma WithoutIdKeepsDistinct(s: seq<Record>, id: int)
    requires DistinctIds(s)
    ensures DistinctIds(WithoutId(s, id))
  {
    if s != [] {
      WithoutIdKeepsDistinct(s[..|s| - 1], id);
      if s[|s| - 1].id != id {
        var p := WithoutId(s[..|s| - 1], id);
        WithoutIdMembers(s[..|s| - 1], id);
        forall x | x in p ensures x.id != s[|s| - 1].id {
          assert x in s[..|s| - 1];
        }
      }
    }
  }

  /** The record with Name and Wkt taken from the request and its id kept. */
  function WithFields(r: Record, dto: Dto): (u: Record)
    ensures u.id == r.id && u.name == dto.name && u.wkt == dto.wkt
  {
    r.(name := dto.name, wkt := dto.wkt)
  }

  /** `Select(x => x.Id == id ? e : x)`. */
  function Replaced(s: seq<Record>, id: int, e: Record): (r: seq<Record>)
    ensures |r| == |s|
    ensures forall i :: 0 <= i < |s| ==> r[i] == if s[i].id == id then e else s[i]
  {
    if s == [] then [] else Replaced(s[..|s| - 1], id, e) + [if s[|s| - 1].id == id then e else s[|s| - 1]]
  }

  /**
   * How the services update: record k (the first with that id) gets the new Name and Wkt in place.
   * On a store with distinct ids nothing else changes and the ids stay distinct.
   */
  lemma UpdateChangesOnlyThatRecord(s: seq<Record>, k: nat, dto: Dto)
    requires DistinctIds(s) && k < |s|
    ensures Replaced(s, s[k].id, WithFields(s[k], dto)) == s[k := WithFields(s[k], dto)]
    ensures DistinctIds(s[k := WithFields(s[k], dto)])
  {
  }

  /** The decimal digits of `n`, as C# formats a non-negative `int`. */
  function Numeral(n: nat): (r: string)
    ensures r != [] && forall j :: 0 <= j < |r| ==> '0' <= r[j] <= '9'
  {
    var digit := ['0' + (n % 10) as char];
    if n < 10 then digit else Numeral(n / 10) + digit
  }

  /**
   * The seed shape of the in-memory stores: records 1..n, the i-th named
   * `kind` followed by i, at the point (i i).
   */
  function Numbered(kind: string, n: nat): (s: seq<Record>)
    ensures |s| == n && DistinctIds(s)
    ensures forall i :: 0 <= i < n ==> s[i].id == i + 1
  {
    if n == 0 then []
    else Numbered(kind, n - 1) + [Record(n, kind + Numeral(n), "POINT(" + Numeral(n) + " " + Numeral(n) + ")")]
  }

  /** Dropping the last records of a numbered store leaves a shorter numbered store. */
  lemma {:induction false} NumberedPrefix(kind: string, n: nat, m: nat)
    requires m <= n
    ensures Numbered(kind, n)[..m] == Numbered(kind, m)
  {
    if m < n {
      NumberedPrefix(kind, n - 1, m);
      assert Numbered(kind, n)[..n - 1] == Numbered(kind, n - 1);
    } else {
      assert Numbered(kind, n)[..m] == Numbered(kind, n);
    }
  }

  /** The three locations every Location service starts with: ids 1..3. */
  function LocationSeed(): (s: seq<Location>)
    ensures |s| == 3 && DistinctIds(s) && NextId(s) == 4
    ensures forall i :: 0 <= i < |s| ==> s[i].id == i + 1
  {
    var s := Numbered("Location", 3);
    MaxIdOfNumbered(s);
    s
  }

  /** The position of the first null request in a batch, or its length when there is none. */
  function FirstNull(dtos: seq<Option<Dto>>): (k: nat)
    ensures k <= |dtos|
    ensures k < |dtos| ==> dtos[k].None?
    ensures forall j :: 0 <= j < k ==> dtos[j].Some?
  {
    if dtos == [] || dtos[0].None? then 0 else 1 + FirstNull(dtos[1..])
  }

  /** The requests of a batch without nulls. */
  function Present(dtos: seq<Option<Dto>>): (r: seq<Dto>)
    requires forall j :: 0 <= j < |dtos| ==> dtos[j].Some?
    ensures |r| == |dtos|
    ensures forall j :: 0 <= j < |dtos| ==> r[j] == dtos[j].value
  {
    if dtos == [] then [] else Present(dtos[..|dtos| - 1]) + [dtos[|dtos| - 1].value]
  }

  /** The records a batch add appends, numbered from `start` in input order. */
  function Stamp(start: int, dtos: seq<Dto>): (r: seq<Record>)
    ensures |r| == |dtos|
    ensures forall k :: 0 <= k < |dtos| ==> r[k] == Record(start + k, dtos[k].name, dtos[k].wkt)
  {
    if dtos == [] then []
    else Stamp(start, dtos[..|dtos| - 1]) + [Record(start + |dtos| - 1, dtos[|dtos| - 1].name, dtos[|dtos| - 1].wkt)]
  }

  /** The ids a batch returns are in input order and strictly increasing. */
  lemma StampIdsIncrease(start: int, dtos: seq<Dto>)
    ensures forall i, j :: 0 <= i < j < |dtos| ==> Ids(Stamp(start, dtos))[i] < Ids(Stamp(start, dtos))[j]
  {
  }

  /** Appending a stamped batch after the current maximum keeps the ids distinct. */
  lemma AppendKeepsDistinct(s: seq<Record>, dtos: seq<Dto>)
    requires s != [] && DistinctIds(s)
    ensures DistinctIds(s + Stamp(NextId(s), dtos))
  {
    var t := s + Stamp(NextId(s), dtos);
    forall i, j | 0 <= i < j < |t| ensures t[i].id != t[j].id {
      if j >= |s| && i < |s| {
        assert t[i] == s[i];
          }
    }
  }

  /** After a stamped batch the largest id is the one the batch's last record got. */
  lemma {:induction false} MaxIdAfterStamp(base: seq<Record>, dtos: seq<Dto>)
    requires base != []
    ensures MaxId(base + Stamp(NextId(base), dtos)) == NextId(base) + |dtos| - 1
  {
    var start := NextId(base);
    if dtos == [] {
      assert base + Stamp(start, dtos) == base;
    } else {
      var init := dtos[..|dtos| - 1];
      MaxIdAfterStamp(base, init);
      var x := Record(start + |dtos| - 1, dtos[|dtos| - 1].name, dtos[|dtos| - 1].wkt);
      assert base + Stamp(start, dtos) == (base + Stamp(start, init)) + [x];
      MaxIdAppend(base + Stamp(start, init), x);
    }
  }

  /** Stamping one more request of the batch adds one record, and its id, at the end. */
  lemma StampSnoc(start: int, dtos: seq<Dto>, i: nat)
    requires i < |dtos|
    ensures Stamp(start, dtos[..i + 1]) == Stamp(start, dtos[..i]) + [Record(start + i, dtos[i].name, dtos[i].wkt)]
    ensures Ids(Stamp(start, dtos[..i + 1])) == Ids(Stamp(start, dtos[..i])) + [start + i]
  {
    var init, next := dtos[..i + 1], Record(start + i, dtos[i].name, dtos[i].wkt);
    assert init[..i] == dtos[..i] && init[i] == dtos[i] && |init| == i + 1;
    assert Stamp(start, init) == Stamp(start, init[..i]) + [next];
    IdsSnoc(Stamp(start, dtos[..i]), next);
  }

  /**
   * One step of a batch loop: with `s` the store so far (the original `base`
   * followed by the first i records of the batch), the next record gets id
   * max+1, which extends the stamped batch, and the ids, by one.
   */
  lemma BatchStep(base: seq<Record>, s: seq<Record>, dtos: seq<Dto>, i: nat)
    requires base != [] && i < |dtos|
    requires s == base + Stamp(NextId(base), dtos[..i])
    ensures s != [] && NextId(s) == NextId(base) + i
    ensures s + [Record(NextId(s), dtos[i].name, dtos[i].wkt)] == base + Stamp(NextId(base), dtos[..i + 1])
    ensures Ids(Stamp(NextId(base), dtos[..i + 1])) == Ids(Stamp(NextId(base), dtos[..i])) + [NextId(s)]
  {
    var start := NextId(base);
    var done := Stamp(start, dtos[..i]);
    assert NextId(s) == start + i by {
      MaxIdAfterStamp(base, dtos[..i]);
    }
    var x := Record(start + i, dtos[i].name, dtos[i].wkt);
    assert done + [x] == Stamp(start, dtos[..i + 1]) && Ids(Stamp(start, dtos[..i + 1])) == Ids(done) + [start + i] by {
      StampSnoc(start, dtos, i);
    }
    assert s + [x] == base + (done + [x]);
  }

  /** Deleting the record with the largest id lets the next add hand that id out again. */
  lemma {:induction false} TopIdIsReused(s: seq<Record>)
    requires DistinctIds(s) && |s| >= 2
    ensures WithoutId(s, MaxId(s)) != []
    ensures NextId(WithoutId(s, MaxId(s))) <= MaxId(s)
  {
    var m := MaxId(s);
    var k :| 0 <= k < |s| && s[k].id == m;
    RemovesExactlyOne(s, k);
    var r := WithoutId(s, m);
    assert |r| == |s| - 1;
    var n := NextId(r);
    var x :| x in r && x.id == n - 1;
    WithoutIdMembers(s, m);
    assert x in s;
  }
}
