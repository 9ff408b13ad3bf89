/** `ORDER BY <timestamp> DESC LIMIT n` over a set of rows, as the listing
    handlers ask the database for it. Rows with equal timestamps may come
    in any order, as they may from the database. */
module Ordering {
  import opened Common

  /** The ids are listed newest first. */
  ghost predicate NewestFirst(ids: seq<Id>, stamp: map<Id, int>)
    requires forall i :: 0 <= i < |ids| ==> ids[i] in stamp
  {
    forall i, j :: 0 <= i < j < |ids| ==> stamp[ids[i]] >= stamp[ids[j]]
  }

  ghost predicate Distinct(ids: seq<Id>) {
    forall i, j :: 0 <= i < j < |ids| ==> ids[i] != ids[j]
  }

  function Min(a: nat, b: nat): nat {
    if a < b then a else b
  }

  /** A row of `rest` that no other row of `rest` is newer than. */
  method Newest(stamp: map<Id, int>, rest: set<Id>) returns (top: Id)
    requires rest != {} && rest <= stamp.Keys
    ensures top in rest
    ensures forall id :: id in rest ==> stamp[id] <= stamp[top]
  {
    var stamps := set id | id in rest :: stamp[id];
    Inhabited(rest);
    var any :| any in rest;
    assert stamp[any] in stamps;
    var newest := MaxOf(stamps);
    assert forall id :: id in rest ==> stamp[id] in stamps;
    top :| top in rest && stamp[top] == newest;
  }

  /** The `limit` newest of the rows timestamped by `stamp`: as many as the
      limit allows, newest first, each at most once, and no row left out is
      newer than a row taken. */
  method TakeNewest(stamp: map<Id, int>, limit: nat) returns (ids: seq<Id>)
    ensures |ids| == Min(limit, |stamp|)
    ensures forall i :: 0 <= i < |ids| ==> ids[i] in stamp
    ensures Distinct(ids)
    ensures NewestFirst(ids, stamp)
    ensures forall id, i :: id in stamp && id !in ids && 0 <= i < |ids| ==> stamp[id] <= stamp[ids[i]]
    ensures |stamp| <= limit ==> forall id :: id in stamp ==> id in ids
  {
    var rest := stamp.Keys;
    ids := [];
    while |ids| < limit && rest != {}
      invariant rest <= stamp.Keys
      invariant |ids| <= limit
      invariant |ids| + |rest| == |stamp.Keys|
      invariant forall i :: 0 <= i < |ids| ==> ids[i] in stamp && ids[i] !in rest
      invariant forall id :: id in stamp && id !in ids ==> id in rest
      invariant Distinct(ids)
      invariant NewestFirst(ids, stamp)
      invariant forall id, i :: id in rest && 0 <= i < |ids| ==> stamp[id] <= stamp[ids[i]]
      decreases rest
    {
      var top := Newest(stamp, rest);
      ids := ids + [top];
      rest := rest - {top};
    }
    assert |stamp.Keys| == |stamp|;
  }
}
