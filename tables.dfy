/**
 * Database tables as sequences of rows in insertion order. Every row carries
 * its primary key; ids are abstract natural numbers handed out by a counter,
 * standing for the UUIDs and autoincrement keys of the real schema.
 */
module Tables {
  import opened Wrappers

  datatype Row<T> = Row(id: nat, data: T)

  /** The primary keys present in a table. */
  ghost function Ids<T(!new)>(t: seq<Row<T>>): set<nat> {
    set r {:trigger r in t} | r in t :: r.id
  }

  /** `ok` holds between every row and every later row. */
  ghost predicate Pairwise<T(!new)>(t: seq<T>, ok: (T, T) -> bool) {
    forall i, j :: 0 <= i < j < |t| ==> ok(t[i], t[j])
  }

  predicate DistinctIds<T(!new)>(a: Row<T>, b: Row<T>) {
    a.id != b.id
  }

  /** Primary keys are unique, and every key is below the next fresh one. */
  ghost predicate Keyed<T(!new)>(t: seq<Row<T>>, bound: nat) {
    && Pairwise(t, DistinctIds)
    && forall r {:trigger r in t} :: r in t ==> r.id < bound
  }

  /** Position of the first row with key `id` (`WHERE id = :id`, first match). */
  function FindIndex<T(!new)>(t: seq<Row<T>>, id: nat): (r: Option<nat>)
    ensures r.Some? ==> r.value < |t| && t[r.value].id == id
    ensures r.Some? ==> forall j :: 0 <= j < r.value ==> t[j].id != id
    ensures r.None? <==> id !in Ids(t)
  {
    if t == [] then None
    else if t[0].id == id then assert t[0] in t; Some(0)
    else
      assert forall x :: x in t ==> x == t[0] || x in t[1..];
      assert forall x :: x in t[1..] ==> x in t;
      match FindIndex(t[1..], id)
      case Some(k) => Some(k + 1)
      case None => None
  }

  /** The columns of the row with key `id`, or None (`session.get`, `scalar_one_or_none`). */
  function Find<T(!new)>(t: seq<Row<T>>, id: nat): (r: Option<T>)
    ensures r.Some? <==> id in Ids(t)
    ensures r.Some? ==> Row(id, r.value) in t
    ensures Pairwise(t, DistinctIds) ==> forall d :: Row(id, d) in t ==> r == Some(d)
  {
    match FindIndex(t, id)
    case Some(k) =>
      assert Pairwise(t, DistinctIds) ==> forall j :: 0 <= j < |t| && t[j].id == id ==> j == k;
      Some(t[k].data)
    case None => None
  }

  /** The rows whose key is not in `ids`: a `DELETE` of those rows. */
  function RemoveIds<T(!new)>(t: seq<Row<T>>, ids: set<nat>): (r: seq<Row<T>>)
    ensures forall x {:trigger x in r} {:trigger x in t} :: x in r <==> x in t && x.id !in ids
    ensures |r| <= |t|
  {
    if t == [] then []
    else if t[0].id in ids then RemoveIds(t[1..], ids)
    else [t[0]] + RemoveIds(t[1..], ids)
  }

  /** `OFFSET skip LIMIT limit`: drop the first `skip` rows, keep at most `limit` of the rest. */
  function Page<T(!new)>(s: seq<T>, skip: nat, limit: nat): (r: seq<T>)
    ensures |r| == if skip >= |s| then 0 else Min(limit, |s| - skip)
    ensures forall i :: 0 <= i < |r| ==> r[i] == s[skip + i]
  {
    var rest := if skip < |s| then s[skip..] else [];
    if limit < |rest| then rest[..limit] else rest
  }

  function Min(a: nat, b: nat): nat {
    if a <= b then a else b
  }

  /** With unique keys, a key determines its row. */
  lemma KeyedRow<T(!new)>(t: seq<Row<T>>, bound: nat, a: Row<T>, b: Row<T>)
    requires Keyed(t, bound)
    requires a in t && b in t && a.id == b.id
    ensures a == b
  {
    assert forall i, j :: 0 <= i < |t| && 0 <= j < |t| && t[i].id == t[j].id ==> i == j;
  }

  /** Inserting a row under the next fresh key keeps the keys unique. */
  lemma KeyedAppend<T(!new)>(t: seq<Row<T>>, bound: nat, x: Row<T>)
    requires Keyed(t, bound)
    requires x.id == bound
    ensures Keyed(t + [x], bound + 1)
  {
    var u := t + [x];
    forall i, j | 0 <= i < j < |u|
      ensures DistinctIds(u[i], u[j])
    {
      if j < |t| {
        assert DistinctIds(t[i], t[j]);
      } else {
        assert u[i] in t;
      }
    }
  }

  /** A larger bound is still above every key. */
  lemma KeyedGrow<T(!new)>(t: seq<Row<T>>, bound: nat, bound': nat)
    requires Keyed(t, bound) && bound <= bound'
    ensures Keyed(t, bound')
  {
  }

  /** Updating the columns of a row in place keeps its key. */
  lemma KeyedUpdate<T(!new)>(t: seq<Row<T>>, bound: nat, k: nat, d: T)
    requires Keyed(t, bound) && k < |t|
    ensures Keyed(t[k := Row(t[k].id, d)], bound)
  {
    var u := t[k := Row(t[k].id, d)];
    forall i, j | 0 <= i < j < |u|
      ensures DistinctIds(u[i], u[j])
    {
      assert DistinctIds(t[i], t[j]);
    }
    forall r | r in u
      ensures r.id < bound
    {
      var i :| 0 <= i < |u| && u[i] == r;
      assert t[i] in t;
    }
  }

  /** Deleting rows keeps every relation that held between the remaining ones. */
  lemma {:induction false} PairwiseRemove<T(!new)>(t: seq<Row<T>>, ids: set<nat>, ok: (Row<T>, Row<T>) -> bool)
    requires Pairwise(t, ok)
    ensures Pairwise(RemoveIds(t, ids), ok)
  {
    if t != [] {
      var tail := t[1..];
      assert Pairwise(tail, ok) by {
        forall i, j | 0 <= i < j < |tail|
          ensures ok(tail[i], tail[j])
        {
          assert ok(t[i + 1], t[j + 1]);
        }
      }
      PairwiseRemove(tail, ids, ok);
      if t[0].id !in ids {
        var rest := RemoveIds(tail, ids);
        var u := [t[0]] + rest;
        forall i, j | 0 <= i < j < |u|
          ensures ok(u[i], u[j])
        {
          if i > 0 {
            assert u[i] == rest[i - 1] && u[j] == rest[j - 1];
          } else {
            assert u[j] in tail;
            var m :| 0 <= m < |tail| && tail[m] == u[j];
            assert ok(t[0], t[m + 1]);
          }
        }
      }
    }
  }

  /** A row related to every existing row can be appended. */
  lemma PairwiseAppend<T(!new)>(t: seq<T>, ok: (T, T) -> bool, y: T)
    requires Pairwise(t, ok)
    requires forall i :: 0 <= i < |t| ==> ok(t[i], y)
    ensures Pairwise(t + [y], ok)
  {
    var u := t + [y];
    forall i, j | 0 <= i < j < |u|
      ensures ok(u[i], u[j])
    {
      if j < |t| {
        assert u[i] == t[i] && u[j] == t[j];
      }
    }
  }

  /** A row related to the other rows as the row it replaces was can replace it. */
  lemma PairwiseUpdate<T(!new)>(t: seq<T>, ok: (T, T) -> bool, k: nat, y: T)
    requires Pairwise(t, ok) && k < |t|
    requires forall i :: 0 <= i < k ==> ok(t[i], y)
    requires forall j :: k < j < |t| ==> ok(y, t[j])
    ensures Pairwise(t[k := y], ok)
  {
    var u := t[k := y];
    forall i, j | 0 <= i < j < |u|
      ensures ok(u[i], u[j])
    {
      if i != k && j != k {
        assert u[i] == t[i] && u[j] == t[j];
      }
    }
  }

  /** Deleting rows keeps the keys unique. */
  lemma KeyedRemove<T(!new)>(t: seq<Row<T>>, bound: nat, ids: set<nat>)
    requires Keyed(t, bound)
    ensures Keyed(RemoveIds(t, ids), bound)
  {
    PairwiseRemove(t, ids, DistinctIds);
  }

  /** Deleting keys no row carries changes nothing. */
  lemma {:induction false} RemoveNothing<T(!new)>(t: seq<Row<T>>, ids: set<nat>)
    requires forall x :: x in t ==> x.id !in ids
    ensures RemoveIds(t, ids) == t
  {
    if t != [] {
      assert t[0] in t;
      assert forall x :: x in t[1..] ==> x in t;
      RemoveNothing(t[1..], ids);
      assert [t[0]] + t[1..] == t;
    }
  }

  /** Deleting `ids` and then one more key deletes both. */
  lemma {:induction false} RemoveIdsTwice<T(!new)>(t: seq<Row<T>>, ids: set<nat>, id: nat)
    ensures RemoveIds(RemoveIds(t, ids), {id}) == RemoveIds(t, ids + {id})
  {
    if t != [] {
      RemoveIdsTwice(t[1..], ids, id);
    }
  }

  /** The keys of a table with one more row are the old keys and that row's. */
  lemma IdsSnoc<T(!new)>(t: seq<Row<T>>, x: Row<T>)
    ensures Ids(t + [x]) == Ids(t) + {x.id}
  {
    forall y | y in t + [x] ensures y in t || y == x { }
    assert x in t + [x];
    forall y | y in t ensures y in t + [x] { }
  }
}
