/** The display order of a coach's event types: appending, reordering, listing. */
module Catalogue {
  import opened Domain

  /** `title` is the rank of the title in the database's text order. */
  datatype Row = Row(coach: CoachId, position: int, title: nat)

  datatype CatalogueError = NotYours

  predicate InOrder(a: Row, b: Row) {
    a.position < b.position || (a.position == b.position && a.title <= b.title)
  }

  predicate Distinct(ids: seq<TypeId>) {
    forall i, j :: 0 <= i < j < |ids| ==> ids[i] != ids[j]
  }

  predicate Owns(rows: map<TypeId, Row>, coach: CoachId, id: TypeId) {
    id in rows && rows[id].coach == coach
  }

  /** A possible answer of `findMine`: the coach's rows, each once, by position and then title; the
      database is free among equal ones. */
  ghost predicate IsListing(rows: map<TypeId, Row>, coach: CoachId, listing: seq<TypeId>) {
    && Distinct(listing)
    && (forall id :: id in listing <==> Owns(rows, coach, id))
    && (forall i :: 0 <= i < |listing| ==> listing[i] in rows)
    && (forall i, j :: 0 <= i < j < |listing| ==> InOrder(rows[listing[i]], rows[listing[j]]))
  }

  /** The rows the ownership query of `reorder` returns. */
  function OwnedAmong(rows: map<TypeId, Row>, coach: CoachId, ids: seq<TypeId>): set<TypeId> {
    set id | id in ids && Owns(rows, coach, id)
  }

  function Elements(ids: seq<TypeId>): set<TypeId> {
    set id | id in ids
  }

  lemma {:induction false} DistinctIffFullSize(ids: seq<TypeId>)
    ensures |Elements(ids)| <= |ids|
    ensures Distinct(ids) <==> |Elements(ids)| == |ids|
  {
    if |ids| > 0 {
      var front, last := ids[..|ids| - 1], ids[|ids| - 1];
      DistinctIffFullSize(front);
      assert ids == front + [last];
      assert Elements(ids) == Elements(front) + {last};
      assert Distinct(ids) <==> Distinct(front) && last !in front;
      assert last in front <==> last in Elements(front);
    }
  }

  lemma {:induction false} SmallerSubset(a: set<TypeId>, b: set<TypeId>)
    requires a <= b
    ensures |a| <= |b| && (|a| == |b| ==> a == b)
    decreases a
  {
    if x :| x in a {
      SmallerSubset(a - {x}, b - {x});
    }
  }

  /** The length test accepts exactly the lists of pairwise distinct, owned ids. */
  lemma LengthTestIff(rows: map<TypeId, Row>, coach: CoachId, ids: seq<TypeId>)
    ensures |OwnedAmong(rows, coach, ids)| == |ids| <==>
            Distinct(ids) && forall id :: id in ids ==> Owns(rows, coach, id)
  {
    DistinctIffFullSize(ids);
    SmallerSubset(OwnedAmong(rows, coach, ids), Elements(ids));
    if forall id :: id in ids ==> Owns(rows, coach, id) {
      assert OwnedAmong(rows, coach, ids) == Elements(ids);
    } else {
      var id :| id in ids && !Owns(rows, coach, id);
      assert id in Elements(ids) && id !in OwnedAmong(rows, coach, ids);
    }
  }

  /** Every listed id has its index as position; nothing else changed. */
  ghost predicate Reordered(before: map<TypeId, Row>, after: map<TypeId, Row>, ids: seq<TypeId>) {
    && after.Keys == before.Keys
    && (forall k :: 0 <= k < |ids| ==> ids[k] in before && after[ids[k]] == before[ids[k]].(position := k))
    && (forall id :: id in before && id !in ids ==> after[id] == before[id])
  }

  ghost predicate IsMaxPosition(rows: map<TypeId, Row>, coach: CoachId, max: Option<int>) {
    && (forall id :: Owns(rows, coach, id) ==> max.Some? && rows[id].position <= max.value)
    && (max.Some? ==> exists id :: Owns(rows, coach, id) && rows[id].position == max.value)
  }

  class EventTypes {
    var rows: map<TypeId, Row>
    var nextId: TypeId

    ghost predicate Valid() reads this {
      forall id :: id in rows ==> id < nextId
    }

    constructor ()
      ensures Valid() && rows == map[]
    {
      rows, nextId := map[], 0;
    }

    /** `max` is the database's aggregate over the coach's positions, `None` when there is no row. */
    method Create(coach: CoachId, title: nat, position: Option<int>, max: Option<int>) returns (id: TypeId)
      requires Valid() && IsMaxPosition(rows, coach, max)
      modifies this
      ensures Valid() && id !in old(rows)
      ensures position.Some? ==> rows == old(rows)[id := Row(coach, position.value, title)]
      ensures position.None? ==>
                && rows == old(rows)[id := Row(coach, if max.Some? then max.value + 1 else 0, title)]
                && AppendedLast(old(rows), rows, coach, id)
    {
      var p := if position.Some? then position.value else (if max.Some? then max.value else -1) + 1;
      id := nextId;
      rows := rows[id := Row(coach, p, title)];
      nextId := nextId + 1;
    }

    method Reorder(coach: CoachId, ids: seq<TypeId>) returns (r: Result<(), CatalogueError>)
      requires Valid()
      modifies this`rows
      ensures Valid()
      ensures r.Ok? <==> Distinct(ids) && forall id :: id in ids ==> Owns(old(rows), coach, id)
      ensures if r.Ok? then Reordered(old(rows), rows, ids) else rows == old(rows)
    {
      LengthTestIff(rows, coach, ids);
      var owned := OwnedAmong(rows, coach, ids);
      if |owned| != |ids| {
        return Err(NotYours);
      }
      assert forall k :: 0 <= k < |ids| ==> Owns(rows, coach, ids[k]);
      for index := 0 to |ids|
        invariant rows.Keys == old(rows).Keys
        invariant forall k :: 0 <= k < index ==> rows[ids[k]] == old(rows)[ids[k]].(position := k)
        invariant forall k :: index <= k < |ids| ==> rows[ids[k]] == old(rows)[ids[k]]
        invariant forall id :: id in old(rows) && id !in ids ==> rows[id] == old(rows)[id]
      {
        rows := rows[ids[index] := rows[ids[index]].(position := index)];
      }
      r := Ok(());
    }
  }

  // ---------- what the coach then sees

  /** In every listing after the append, the new row comes last. */
  ghost predicate AppendedLast(before: map<TypeId, Row>, after: map<TypeId, Row>, coach: CoachId, id: TypeId) {
    id in after && after[id].coach == coach
    && forall other :: Owns(before, coach, other) ==> other in after && after[other].position < after[id].position
  }

  lemma DefaultCreateListsLast(before: map<TypeId, Row>, after: map<TypeId, Row>, coach: CoachId, id: TypeId,
                               listing: seq<TypeId>)
    requires after.Keys == before.Keys + {id} && AppendedLast(before, after, coach, id)
    requires forall other :: other in before && other != id ==> after[other] == before[other]
    requires IsListing(after, coach, listing)
    ensures |listing| > 0 && listing[|listing| - 1] == id
  {
    assert id in listing;
    var last := listing[|listing| - 1];
    var i :| 0 <= i < |listing| && listing[i] == id;
    assert last in listing && Owns(after, coach, last);
    assert last != id ==> Owns(before, coach, last);
  }

  /** The listed ids of `listing`, in listing order. */
  function Restrict(listing: seq<TypeId>, ids: seq<TypeId>): seq<TypeId> {
    if |listing| == 0 then []
    else
      Restrict(listing[..|listing| - 1], ids)
      + (if listing[|listing| - 1] in ids then [listing[|listing| - 1]] else [])
  }

  ghost predicate StrictlyPlaced(rows: map<TypeId, Row>, s: seq<TypeId>) {
    && (forall i :: 0 <= i < |s| ==> s[i] in rows)
    && (forall i, j :: 0 <= i < j < |s| ==> rows[s[i]].position < rows[s[j]].position)
  }

  lemma {:induction false} RestrictKeepsOrder(rows: map<TypeId, Row>, listing: seq<TypeId>, ids: seq<TypeId>)
    requires Distinct(listing) && forall id :: id in listing ==> id in rows
    requires forall i, j :: 0 <= i < j < |listing| ==> InOrder(rows[listing[i]], rows[listing[j]])
    requires forall a, b :: a in ids && b in ids && a in rows && b in rows && a != b ==>
                              rows[a].position != rows[b].position
    ensures StrictlyPlaced(rows, Restrict(listing, ids))
    ensures forall id :: id in Restrict(listing, ids) <==> id in listing && id in ids
  {
    if |listing| > 0 {
      var front, last := listing[..|listing| - 1], listing[|listing| - 1];
      assert listing == front + [last];
      RestrictKeepsOrder(rows, front, ids);
      var r := Restrict(front, ids);
      forall i | 0 <= i < |r| && last in ids ensures rows[r[i]].position < rows[last].position {
        assert r[i] in r;
        var k :| 0 <= k < |front| && front[k] == r[i];
        assert listing[k] == r[i] && listing[|listing| - 1] == last;
        assert InOrder(rows[listing[k]], rows[listing[|listing| - 1]]);
      }
    }
  }

  lemma {:induction false} PlacedAtLeast(rows: map<TypeId, Row>, s: seq<TypeId>, k: nat)
    requires StrictlyPlaced(rows, s) && k < |s| && forall i :: 0 <= i < |s| ==> 0 <= rows[s[i]].position
    ensures k <= rows[s[k]].position
  {
    if k > 0 {
      PlacedAtLeast(rows, s, k - 1);
    }
  }

  lemma {:induction false} PlacedAtMost(rows: map<TypeId, Row>, s: seq<TypeId>, k: nat)
    requires StrictlyPlaced(rows, s) && k < |s| && forall i :: 0 <= i < |s| ==> rows[s[i]].position < |s|
    ensures rows[s[k]].position <= k
    decreases |s| - k
  {
    if k + 1 < |s| {
      PlacedAtMost(rows, s, k + 1);
    }
  }

  /** A strictly placed sequence of exactly the ids, each placed at its index in `ids`, is `ids`. */
  lemma PlacedByIndexIsSame(rows: map<TypeId, Row>, r: seq<TypeId>, ids: seq<TypeId>)
    requires Distinct(ids) && StrictlyPlaced(rows, r) && Elements(r) == Elements(ids)
    requires forall k :: 0 <= k < |ids| ==> ids[k] in rows && rows[ids[k]].position == k
    ensures r == ids
  {
    assert Distinct(r);
    DistinctIffFullSize(r);
    DistinctIffFullSize(ids);
    forall k | 0 <= k < |r| ensures 0 <= rows[r[k]].position < |r| && ids[rows[r[k]].position] == r[k] {
      assert r[k] in Elements(r);
      var i :| 0 <= i < |ids| && ids[i] == r[k];
    }
    forall k | 0 <= k < |r| ensures r[k] == ids[k] {
      PlacedAtLeast(rows, r, k);
      PlacedAtMost(rows, r, k);
    }
  }

  lemma RestrictedListing(after: map<TypeId, Row>, coach: CoachId, ids: seq<TypeId>, listing: seq<TypeId>)
    requires Distinct(ids) && IsListing(after, coach, listing)
    requires forall k :: 0 <= k < |ids| ==> Owns(after, coach, ids[k]) && after[ids[k]].position == k
    ensures Restrict(listing, ids) == ids
  {
    RestrictKeepsOrder(after, listing, ids);
    var r := Restrict(listing, ids);
    forall id ensures id in Elements(r) <==> id in Elements(ids) {
      if id in ids {
        var i :| 0 <= i < |ids| && ids[i] == id;
        assert Owns(after, coach, ids[i]);
      }
    }
    PlacedByIndexIsSame(after, r, ids);
  }

  /** After an accepted reorder, every listing shows the listed ids in exactly the given order; and when
      the list covers the coach's whole catalogue, the listing is that list. */
  lemma ListingFollowsReorder(before: map<TypeId, Row>, after: map<TypeId, Row>, coach: CoachId, ids: seq<TypeId>,
                              listing: seq<TypeId>)
    requires Distinct(ids) && forall id :: id in ids ==> Owns(before, coach, id)
    requires Reordered(before, after, ids) && IsListing(after, coach, listing)
    ensures Restrict(listing, ids) == ids
    ensures (forall id :: Owns(before, coach, id) ==> id in ids) ==> listing == ids
  {
    forall k | 0 <= k < |ids| ensures Owns(after, coach, ids[k]) && after[ids[k]].position == k {
      assert Owns(before, coach, ids[k]);
    }
    RestrictedListing(after, coach, ids, listing);
    if forall id :: Owns(before, coach, id) ==> id in ids {
      forall id | id in listing ensures id in ids {
        assert Owns(after, coach, id);
        assert id !in ids ==> Owns(before, coach, id);
      }
      RestrictAll(listing, ids);
    }
  }

  lemma {:induction false} RestrictAll(listing: seq<TypeId>, ids: seq<TypeId>)
    requires forall id :: id in listing ==> id in ids
    ensures Restrict(listing, ids) == listing
  {
    if |listing| > 0 {
      var front := listing[..|listing| - 1];
      assert listing == front + [listing[|listing| - 1]];
      RestrictAll(front, ids);
    }
  }
}
