/** The read path behind `/getRF`: `find({}).sort({timestamp: -1}).limit(50)`.
    MongoDB executes that query; this module states what its result must be
    (`IsLatestPage`) and gives one reference result (`LatestPage`) proved to
    meet it, which shows the contract can be met for every collection. */
module Snapshot {
  import opened Values

  /** The page size requested by `.limit(50)`. */
  const LIMIT: nat := 50

  function Min(a: nat, b: nat): nat
  {
    if a <= b then a else b
  }

  /** The sort key: a missing `timestamp` sorts as null. */
  function Timestamp(d: Doc): Value
  {
    if "timestamp" in d then d["timestamp"] else Null
  }

  /** `a` is not newer than `b`. */
  predicate NotNewer(a: Doc, b: Doc)
  {
    ValueLe(Timestamp(a), Timestamp(b))
  }

  /** Non-increasing timestamps, as `sort({timestamp: -1})` orders them. */
  predicate NewestFirst(page: seq<Doc>)
  {
    forall i, j :: 0 <= i < j < |page| ==> NotNewer(page[j], page[i])
  }

  /** The contract of the query: as many documents as the limit allows, taken
      from the collection, newest first, and no document left out is newer
      than one returned. Ties may be broken in any order. */
  ghost predicate IsLatestPage(store: seq<Doc>, page: seq<Doc>)
  {
    && |page| == Min(LIMIT, |store|)
    && multiset(page) <= multiset(store)
    && NewestFirst(page)
    && forall d, p :: d in multiset(store) - multiset(page) && p in page ==> NotNewer(d, p)
  }

  /** Places `d` in front of the first element that is not newer than it. */
  function Insert(d: Doc, s: seq<Doc>): (r: seq<Doc>)
    ensures multiset(r) == multiset(s) + multiset{d}
    decreases |s|
  {
    if s == [] then [d]
    else if NotNewer(s[0], d) then [d] + s
    else
      assert s == [s[0]] + s[1..];
      [s[0]] + Insert(d, s[1..])
  }

  function SortNewestFirst(s: seq<Doc>): (r: seq<Doc>)
    ensures multiset(r) == multiset(s) && |r| == |s|
    decreases |s|
  {
    if s == [] then []
    else
      assert s == [s[0]] + s[1..];
      Insert(s[0], SortNewestFirst(s[1..]))
  }

  /** The reference result of the query. */
  function LatestPage(store: seq<Doc>): (page: seq<Doc>)
  {
    SortNewestFirst(store)[..Min(LIMIT, |store|)]
  }

  lemma {:induction false} InsertKeepsOrder(d: Doc, s: seq<Doc>)
    requires NewestFirst(s)
    ensures NewestFirst(Insert(d, s))
    decreases |s|
  {
    if s == [] {
    } else if NotNewer(s[0], d) {
      forall j | 0 <= j < |s| ensures NotNewer(s[j], d) {
        if j > 0 {
          ValueLeTransitive(Timestamp(s[j]), Timestamp(s[0]), Timestamp(d));
        }
      }
    } else {
      ValueLeTotal(Timestamp(s[0]), Timestamp(d));
      var tail := s[1..];
      InsertKeepsOrder(d, tail);
      var r := Insert(d, tail);
      forall x | x in r ensures NotNewer(x, s[0]) {
        assert x in multiset(r);
        if x != d {
          assert x in multiset(tail);
          var j :| 0 <= j < |tail| && tail[j] == x;
          assert s[j + 1] == x;
        }
      }
      forall i, j | 0 <= i < j < |[s[0]] + r| ensures NotNewer(([s[0]] + r)[j], ([s[0]] + r)[i]) {
        if i == 0 {
          assert ([s[0]] + r)[j] in r;
        }
      }
    }
  }

  lemma {:induction false} SortIsNewestFirst(s: seq<Doc>)
    ensures NewestFirst(SortNewestFirst(s))
    decreases |s|
  {
    if s != [] {
      SortIsNewestFirst(s[1..]);
      InsertKeepsOrder(s[0], SortNewestFirst(s[1..]));
    }
  }

  /** The reference result meets the query contract, for every collection. */
  lemma LatestPageMeetsContract(store: seq<Doc>)
    ensures IsLatestPage(store, LatestPage(store))
  {
    var sorted := SortNewestFirst(store);
    var m := Min(LIMIT, |store|);
    var page, rest := sorted[..m], sorted[m..];
    SortIsNewestFirst(store);
    assert sorted == page + rest;
    assert multiset(sorted) == multiset(page) + multiset(rest);
    forall d, p | d in multiset(store) - multiset(page) && p in page ensures NotNewer(d, p) {
      assert d in multiset(rest);
      assert d in rest;
      var k :| 0 <= k < |rest| && rest[k] == d;
      var i :| 0 <= i < |page| && page[i] == p;
      assert sorted[m + k] == d && sorted[i] == p;
    }
  }
}
