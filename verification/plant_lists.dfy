/** The three list edits the store applies to its in-memory collection
    (store/list_plants_store.tsx): filtering out the records with an id for
    removal, finding the first index with an id for watering, and the
    replacement of the found record by a copy with a new watering date. */
module PlantLists {
  import opened Wrappers
  import opened Plants

  // ---------------------------------------------------------------------------
  // Removal: keep only the records whose id differs
  // ---------------------------------------------------------------------------

  /** The records of `ps` whose id differs from `id`, in their original order.
      Every occurrence of `id` goes, not only the first. */
  function RemoveId(ps: seq<Plant>, id: string): (r: seq<Plant>)
    ensures |r| <= |ps|
    ensures forall p :: p in r ==> p in ps && p.id != id
    ensures forall p :: p in ps && p.id != id ==> p in r
    ensures id !in IdSet(ps) <==> r == ps
  {
    if ps == [] then []
    else
      var rest := RemoveId(ps[1..], id);
      assert ps == [ps[0]] + ps[1..];
      if ps[0].id == id then rest else [ps[0]] + rest
  }

  /** Every record with another id is kept as many times as it occurs, and
      none with the removed id is kept. */
  lemma {:induction false} RemoveIdCounts(ps: seq<Plant>, id: string)
    ensures forall p :: multiset(RemoveId(ps, id))[p] == if p.id == id then 0 else multiset(ps)[p]
  {
    if ps != [] {
      RemoveIdCounts(ps[1..], id);
      assert ps == [ps[0]] + ps[1..];
      assert multiset(ps) == multiset{ps[0]} + multiset(ps[1..]);
      if ps[0].id != id {
        assert RemoveId(ps, id) == [ps[0]] + RemoveId(ps[1..], id);
        assert multiset(RemoveId(ps, id)) == multiset{ps[0]} + multiset(RemoveId(ps[1..], id));
      }
    }
  }

  /** Filtering a concatenation filters each part: the kept records keep
      their relative order. */
  lemma {:induction false} RemoveIdAppend(a: seq<Plant>, b: seq<Plant>, id: string)
    ensures RemoveId(a + b, id) == RemoveId(a, id) + RemoveId(b, id)
  {
    if a == [] {
      assert a + b == b;
    } else {
      assert (a + b)[0] == a[0];
      assert (a + b)[1..] == a[1..] + b;
      RemoveIdAppend(a[1..], b, id);
    }
  }

  /** `a` is `b` with some records dropped and the rest in their original
      order. */
  predicate IsSubsequence(a: seq<Plant>, b: seq<Plant>)
    decreases |b|
  {
    if a == [] then true
    else if b == [] then false
    else (a[0] == b[0] && IsSubsequence(a[1..], b[1..])) || IsSubsequence(a, b[1..])
  }

  /** The kept records keep their relative order. */
  lemma {:induction false} RemoveIdIsSubsequence(ps: seq<Plant>, id: string)
    ensures IsSubsequence(RemoveId(ps, id), ps)
  {
    if ps != [] {
      RemoveIdIsSubsequence(ps[1..], id);
    }
  }

  /** Dropping records keeps the ids distinct. */
  lemma {:induction false} SubsequenceKeepsUnique(a: seq<Plant>, b: seq<Plant>)
    requires IsSubsequence(a, b) && UniqueIds(b)
    ensures UniqueIds(a)
    decreases |b|
  {
    if a != [] {
      assert UniqueIds(b[1..]) by {
        forall i, j | 0 <= i < j < |b[1..]| ensures b[1..][i].id != b[1..][j].id {
          assert b[1..][i] == b[i + 1] && b[1..][j] == b[j + 1];
        }
      }
      if a[0] == b[0] && IsSubsequence(a[1..], b[1..]) {
        SubsequenceKeepsUnique(a[1..], b[1..]);
        SubsequenceIdSet(a[1..], b[1..]);
        forall j | 0 < j < |a| ensures a[0].id != a[j].id {
          assert a[j] == a[1..][j - 1];
          assert a[j].id in IdSet(b[1..]);
          var q :| q in b[1..] && q.id == a[j].id;
          var k :| 0 <= k < |b[1..]| && b[1..][k] == q;
          assert b[k + 1] == q;
        }
        forall i, j | 0 <= i < j < |a| ensures a[i].id != a[j].id {
          if i > 0 {
            assert a[i] == a[1..][i - 1] && a[j] == a[1..][j - 1];
          }
        }
      } else {
        SubsequenceKeepsUnique(a, b[1..]);
      }
    }
  }

  /** The ids of a subsequence are among the ids of the whole. */
  lemma {:induction false} SubsequenceIdSet(a: seq<Plant>, b: seq<Plant>)
    requires IsSubsequence(a, b)
    ensures IdSet(a) <= IdSet(b)
    decreases |b|
  {
    if a != [] {
      if a[0] == b[0] && IsSubsequence(a[1..], b[1..]) {
        SubsequenceIdSet(a[1..], b[1..]);
        assert a == [a[0]] + a[1..];
        assert b == [b[0]] + b[1..];
        assert IdSet(a) == {a[0].id} + IdSet(a[1..]);
        assert IdSet(b) == {b[0].id} + IdSet(b[1..]);
      } else {
        SubsequenceIdSet(a, b[1..]);
        assert b == [b[0]] + b[1..];
        assert IdSet(b) == {b[0].id} + IdSet(b[1..]);
      }
    }
  }

  /** The ids left after removal are the old ids without `id`. */
  lemma {:induction false} RemoveIdIdSet(ps: seq<Plant>, id: string)
    ensures IdSet(RemoveId(ps, id)) == IdSet(ps) - {id}
  {
    var r := RemoveId(ps, id);
    forall x | x in IdSet(ps) - {id} ensures x in IdSet(r) {
      var p :| p in ps && p.id == x;
      assert p in r;
    }
  }

  /** Removing an id twice is removing it once. */
  lemma RemoveIdIdempotent(ps: seq<Plant>, id: string)
    ensures RemoveId(RemoveId(ps, id), id) == RemoveId(ps, id)
  {
  }

  /** Removal of two ids does not depend on the order of the removals. */
  lemma {:induction false} RemoveIdCommutes(ps: seq<Plant>, a: string, b: string)
    ensures RemoveId(RemoveId(ps, a), b) == RemoveId(RemoveId(ps, b), a)
  {
    if ps != [] {
      RemoveIdCommutes(ps[1..], a, b);
      RemoveIdAppend([ps[0]], RemoveId(ps[1..], a), b);
      RemoveIdAppend([ps[0]], RemoveId(ps[1..], b), a);
      assert [ps[0]][1..] == [];
    }
  }

  /** Appending a record with a fresh id and then removing that id gives the
      original list back: removal undoes a successful addition. */
  lemma RemoveUndoesAppend(ps: seq<Plant>, p: Plant)
    requires p.id !in IdSet(ps)
    ensures RemoveId(ps + [p], p.id) == ps
  {
    RemoveIdAppend(ps, [p], p.id);
    assert [p][1..] == [];
  }

  /** Removal keeps the ids distinct. */
  lemma {:induction false} RemoveIdKeepsUnique(ps: seq<Plant>, id: string)
    requires UniqueIds(ps)
    ensures UniqueIds(RemoveId(ps, id))
  {
    RemoveIdIsSubsequence(ps, id);
    SubsequenceKeepsUnique(RemoveId(ps, id), ps);
  }

  // ---------------------------------------------------------------------------
  // Lookup: the first index whose record has the id, or -1
  // ---------------------------------------------------------------------------

  /** `k` is the position of the first record with id `id`. */
  predicate IsFirstWith(ps: seq<Plant>, id: string, k: int)
  {
    0 <= k < |ps| && ps[k].id == id && forall j :: 0 <= j < k ==> ps[j].id != id
  }

  /** The position of the first record with id `id`, or -1 when there is
      none, as `findIndex` answers. */
  function FindIndex(ps: seq<Plant>, id: string): (k: int)
    ensures -1 <= k < |ps|
    ensures k == -1 <==> id !in IdSet(ps)
    ensures k != -1 ==> IsFirstWith(ps, id, k)
  {
    if ps == [] then -1
    else if ps[0].id == id then 0
    else
      var k := FindIndex(ps[1..], id);
      assert ps == [ps[0]] + ps[1..];
      if k == -1 then -1 else k + 1
  }

  /** There is at most one first position. */
  lemma FirstWithUnique(ps: seq<Plant>, id: string, k: int, k': int)
    requires IsFirstWith(ps, id, k) && IsFirstWith(ps, id, k')
    ensures k == k'
  {
  }

  // ---------------------------------------------------------------------------
  // Watering: replace the found record by a copy with a new watering date
  // ---------------------------------------------------------------------------

  /** The list with the first record of id `id` marked as watered at `now`;
      the list itself when no record has that id. */
  function WaterFirst(ps: seq<Plant>, id: string, now: int): (r: seq<Plant>)
    ensures |r| == |ps|
    ensures Ids(r) == Ids(ps)
    ensures id !in IdSet(ps) ==> r == ps
    ensures forall k :: IsFirstWith(ps, id, k) ==>
      && r[k].lastWateredDate == Some(now)
      && SameExceptWatering(r[k], ps[k])
      && (forall j :: 0 <= j < |ps| && j != k ==> r[j] == ps[j])
  {
    var k := FindIndex(ps, id);
    if k == -1 then ps else ps[k := ps[k].(lastWateredDate := Some(now))]
  }

  /** A reference definition of watering by a single left-to-right scan that
      stops at the first match. */
  function WaterScan(ps: seq<Plant>, id: string, now: int): seq<Plant>
  {
    if ps == [] then []
    else if ps[0].id == id then [ps[0].(lastWateredDate := Some(now))] + ps[1..]
    else [ps[0]] + WaterScan(ps[1..], id, now)
  }

  /** Update at the index `findIndex` returns agrees with the scan. */
  lemma {:induction false} WaterFirstIsScan(ps: seq<Plant>, id: string, now: int)
    ensures WaterFirst(ps, id, now) == WaterScan(ps, id, now)
  {
    if ps != [] && ps[0].id != id {
      WaterFirstIsScan(ps[1..], id, now);
      var k := FindIndex(ps[1..], id);
      assert ps == [ps[0]] + ps[1..];
      if k != -1 {
        assert FindIndex(ps, id) == k + 1;
        assert ps[k + 1 := ps[k + 1].(lastWateredDate := Some(now))]
            == [ps[0]] + ps[1..][k := ps[1..][k].(lastWateredDate := Some(now))];
      }
    }
  }

  /** Watering again overrides the earlier date: only the last clock reading
      is kept. */
  lemma WaterFirstOverrides(ps: seq<Plant>, id: string, t1: int, t2: int)
    ensures WaterFirst(WaterFirst(ps, id, t1), id, t2) == WaterFirst(ps, id, t2)
  {
    var k := FindIndex(ps, id);
    if k != -1 {
      var w := WaterFirst(ps, id, t1);
      assert Ids(w) == Ids(ps);
      assert forall j :: 0 <= j < |w| ==> w[j].id == ps[j].id;
      assert IsFirstWith(w, id, k);
      FirstWithUnique(w, id, k, FindIndex(w, id));
    }
  }

  /** Watering keeps the ids distinct, since it keeps every id in place. */
  lemma WaterFirstKeepsUnique(ps: seq<Plant>, id: string, now: int)
    requires UniqueIds(ps)
    ensures UniqueIds(WaterFirst(ps, id, now))
  {
    var r := WaterFirst(ps, id, now);
    assert Ids(r) == Ids(ps);
    assert forall j :: 0 <= j < |r| ==> r[j].id == ps[j].id;
  }

  /** Appending keeps the ids distinct exactly when the new id is fresh. */
  lemma AppendKeepsUniqueIff(ps: seq<Plant>, p: Plant)
    requires UniqueIds(ps)
    ensures UniqueIds(ps + [p]) <==> p.id !in IdSet(ps)
  {
    var r := ps + [p];
    if p.id in IdSet(ps) {
      var q :| q in ps && q.id == p.id;
      var i :| 0 <= i < |ps| && ps[i] == q;
      assert r[i].id == r[|ps|].id;
    } else {
      forall i, j | 0 <= i < j < |r| ensures r[i].id != r[j].id {
        if j == |ps| {
          assert ps[i] in ps;
        }
      }
    }
  }
}
