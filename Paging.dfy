/**
 * Page arithmetic shared by the services: LINQ's `Skip(n).Take(m)` on an
 * array, the offset `pageSize * (pageNumber - 1)`, and C#'s unchecked 32-bit
 * `int` arithmetic that the array services compute that offset in.
 */
module Paging {

  const Int32Min: int := -0x8000_0000
  const Int32Max: int := 0x7fff_ffff

  predicate IsInt32(x: int)
  {
    Int32Min <= x <= Int32Max
  }

  /** C#'s unchecked conversion of an exact result to `int`: wrap-around modulo 2^32. */
  function Wrap32(x: int): (r: int)
    ensures IsInt32(r)
    ensures (x - r) % 0x1_0000_0000 == 0
    ensures IsInt32(x) ==> r == x
  {
    (x + 0x8000_0000) % 0x1_0000_0000 - 0x8000_0000
  }

  /** `Skip(skip).Take(take)`: a negative count skips or takes nothing. */
  function Window<T>(s: seq<T>, skip: int, take: int): (r: seq<T>)
    ensures skip <= 0 && take >= |s| ==> r == s
    ensures skip <= 0 && take >= 0 ==> r == s[..if take <= |s| then take else |s|]
    ensures 0 <= skip <= |s| && take >= 0 ==> r == s[skip..if skip + take <= |s| then skip + take else |s|]
    ensures skip >= |s| || take <= 0 ==> r == []
  {
    var lo := if skip <= 0 then 0 else if skip >= |s| then |s| else skip;
    var n := if take <= 0 then 0 else if take >= |s| - lo then |s| - lo else take;
    s[lo..lo + n]
  }

  /** The number of records before page `pageNumber` of size `pageSize`, computed without overflow. */
  function Offset(pageNumber: int, pageSize: int): (o: int)
    requires pageNumber >= 1 && pageSize >= 1
    ensures o >= 0
    ensures o + pageSize == pageNumber * pageSize
  {
    pageSize * (pageNumber - 1)
  }

  /** Page `pageNumber` (from 1) of `s` with pages of `pageSize` records. */
  function Page<T>(s: seq<T>, pageNumber: int, pageSize: int): (r: seq<T>)
    requires pageNumber >= 1 && pageSize >= 1
    ensures |r| <= pageSize
    ensures r == [] <==> |s| <= Offset(pageNumber, pageSize)
  {
    Window(s, Offset(pageNumber, pageSize), pageSize)
  }

  /** Pages 1 to k, one after the other. */
  function Pages<T>(s: seq<T>, pageSize: int, k: nat): (r: seq<T>)
    requires pageSize >= 1
  {
    if k == 0 then [] else Pages(s, pageSize, k - 1) + Page(s, k, pageSize)
  }

  /** The first `n` records, or all of them when there are fewer. */
  function Prefix<T>(s: seq<T>, n: int): (r: seq<T>)
    requires n >= 0
    ensures |r| == if n <= |s| then n else |s|
    ensures forall i :: 0 <= i < |r| ==> r[i] == s[i]
  {
    if n <= |s| then s[..n] else s
  }

  /** Page k continues the first k - 1 pages. */
  lemma PageExtendsPrefix<T>(s: seq<T>, pageSize: int, k: nat)
    requires pageSize >= 1 && k >= 1
    ensures Prefix(s, Offset(k, pageSize)) + Page(s, k, pageSize) == Prefix(s, Offset(k, pageSize) + pageSize)
  {
    var o := Offset(k, pageSize);
    if o < |s| {
      var hi := if o + pageSize <= |s| then o + pageSize else |s|;
      assert Page(s, k, pageSize) == s[o..hi];
      assert s[..o] + s[o..hi] == s[..hi];
    }
  }

  lemma {:induction false} PagesArePrefix<T>(s: seq<T>, pageSize: int, k: nat)
    requires pageSize >= 1
    ensures Pages(s, pageSize, k) == Prefix(s, k * pageSize)
  {
    if k > 0 {
      PagesArePrefix(s, pageSize, k - 1);
      assert (k - 1) * pageSize == Offset(k, pageSize);
      assert Offset(k, pageSize) + pageSize == k * pageSize;
      PageExtendsPrefix(s, pageSize, k);
    }
  }

  /** Reading pages 1, 2, ... until the data runs out returns every record once, in order. */
  lemma PagesCoverAll<T>(s: seq<T>, pageSize: int, k: nat)
    requires pageSize >= 1 && k * pageSize >= |s|
    ensures Pages(s, pageSize, k) == s
  {
    PagesArePrefix(s, pageSize, k);
  }
}
