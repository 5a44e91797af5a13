/**
 * The in-memory task table: a map from id to record that remembers the order
 * in which its keys were first inserted, as a JavaScript Map does.
 */
module TaskInstance {
  import opened Wrappers
  import opened TaskDefaults

  /** One stored task; timestamps are milliseconds since the epoch. */
  datatype TaskRecord = TaskRecord(
    id: string,
    description: string,
    status: Status,
    createdAt: int,
    updatedAt: int)

  /** Partial<TaskRecord>: any subset of the fields. */
  datatype TaskPatch = TaskPatch(
    id: Option<string>,
    description: Option<string>,
    status: Option<Status>,
    createdAt: Option<int>,
    updatedAt: Option<int>)

  /** `{...existing, ...data}`: each field from the patch if it has one, else from the record. */
  function Merge(existing: TaskRecord, data: TaskPatch): (r: TaskRecord)
    ensures data.id.Some? ==> r.id == data.id.value
    ensures data.id.None? ==> r.id == existing.id
    ensures data.description.Some? ==> r.description == data.description.value
    ensures data.description.None? ==> r.description == existing.description
    ensures data.status.Some? ==> r.status == data.status.value
    ensures data.status.None? ==> r.status == existing.status
    ensures data.createdAt.Some? ==> r.createdAt == data.createdAt.value
    ensures data.createdAt.None? ==> r.createdAt == existing.createdAt
    ensures data.updatedAt.Some? ==> r.updatedAt == data.updatedAt.value
    ensures data.updatedAt.None? ==> r.updatedAt == existing.updatedAt
  {
    TaskRecord(
      data.id.GetOr(existing.id),
      data.description.GetOr(existing.description),
      data.status.GetOr(existing.status),
      data.createdAt.GetOr(existing.createdAt),
      data.updatedAt.GetOr(existing.updatedAt))
  }

  /** Merging the same patch twice is merging it once. */
  lemma MergeIdempotent(existing: TaskRecord, data: TaskPatch)
    ensures Merge(Merge(existing, data), data) == Merge(existing, data)
  {
  }

  predicate Distinct(ks: seq<string>) {
    forall i, j :: 0 <= i < j < |ks| ==> ks[i] != ks[j]
  }

  /** `ks` with `x` taken out, the rest in the same order. */
  function Without(ks: seq<string>, x: string): (r: seq<string>)
    ensures forall k :: k in r <==> k in ks && k != x
    ensures Distinct(ks) ==> Distinct(r)
    ensures x !in ks ==> r == ks
  {
    if ks == [] then []
    else if ks[0] == x then Without(ks[1..], x)
    else
      var rest := Without(ks[1..], x);
      assert Distinct(ks) ==> Distinct(ks[1..]) && ks[0] !in rest;
      [ks[0]] + rest
  }

  /** The values of `m` under the keys `ks`, in that order. */
  function ValuesAt(ks: seq<string>, m: map<string, TaskRecord>): (r: seq<TaskRecord>)
    requires forall k :: k in ks ==> k in m
    ensures |r| == |ks|
    ensures forall i :: 0 <= i < |ks| ==> r[i] == m[ks[i]]
  {
    if ks == [] then [] else [m[ks[0]]] + ValuesAt(ks[1..], m)
  }

  /** Appending a new key and storing its value appends that value. */
  lemma ValuesAtAppend(ks: seq<string>, m: map<string, TaskRecord>, k: string, v: TaskRecord)
    requires forall x :: x in ks ==> x in m
    requires k !in ks
    ensures ValuesAt(ks + [k], m[k := v]) == ValuesAt(ks, m) + [v]
  {
    var a, b := ValuesAt(ks + [k], m[k := v]), ValuesAt(ks, m) + [v];
    forall i | 0 <= i < |a|
      ensures a[i] == b[i]
    {
      if i < |ks| {
        assert (ks + [k])[i] == ks[i];
      }
    }
  }

  /** A list of distinct keys that covers a map's keys has one entry per key. */
  lemma {:induction false} DistinctKeysCount(ks: seq<string>, m: map<string, TaskRecord>)
    requires Distinct(ks)
    requires forall k :: k in m <==> k in ks
    ensures |ks| == |m|
    decreases |ks|
  {
    if ks == [] {
      assert m.Keys == {};
    } else {
      var rest := m - {ks[0]};
      assert forall k :: k in rest <==> k in ks[1..] by {
        forall k ensures k in rest <==> k in ks[1..] {
          if k in ks[1..] {
            var j :| 0 <= j < |ks[1..]| && ks[1..][j] == k;
            assert ks[j + 1] == k;
          }
          if k in ks && k != ks[0] {
            var j :| 0 <= j < |ks| && ks[j] == k;
            assert ks[1..][j - 1] == k;
          }
        }
      }
      DistinctKeysCount(ks[1..], rest);
    }
  }

  class TaskStore {
    /** The records, by id. */
    var records: map<string, TaskRecord>
    /** The keys of `records`, in the order they were first inserted. */
    var keys: seq<string>

    ghost predicate Valid()
      reads this
    {
      Distinct(keys) && records.Keys == set k | k in keys
    }

    /** What `getAll` returns: the stored values in key-insertion order. */
    function Snapshot(): (s: seq<TaskRecord>)
      requires Valid()
      reads this
      ensures |s| == |keys|
    {
      ValuesAt(keys, records)
    }

    constructor ()
      ensures Valid()
      ensures records == map[] && keys == []
    {
      records := map[];
      keys := [];
    }

    /** getAll: a fresh sequence holding each stored record once, in key-insertion order. */
    method GetAll() returns (all: seq<TaskRecord>)
      requires Valid()
      ensures |all| == |keys| == |records|
      ensures forall i :: 0 <= i < |all| ==> keys[i] in records && all[i] == records[keys[i]]
      ensures forall k :: k in records ==> records[k] in all
      ensures all == Snapshot()
    {
      DistinctKeysCount(keys, records);
      all := ValuesAt(keys, records);
      forall k | k in records
        ensures records[k] in all
      {
        var i :| 0 <= i < |keys| && keys[i] == k;
        assert all[i] == records[k];
      }
    }

    /** getById: the record under `id`, or undefined. */
    method GetById(id: string) returns (r: Option<TaskRecord>)
      ensures r.Some? <==> id in records
      ensures r.Some? ==> r.value == records[id]
    {
      r := if id in records then Some(records[id]) else None;
    }

    /** add: stores `record` under its id, replacing any record already there. */
    method Add(record: TaskRecord) returns (r: TaskRecord)
      requires Valid()
      modifies this
      ensures Valid()
      ensures r == record
      ensures records == old(records)[record.id := record]
      ensures keys == if record.id in old(records) then old(keys) else old(keys) + [record.id]
    {
      if record.id !in records {
        keys := keys + [record.id];
      }
      records := records[record.id := record];
      r := record;
    }

    /** update: merges `data` into the record under `id`, if there is one. */
    method Update(id: string, data: TaskPatch) returns (r: Option<TaskRecord>)
      requires Valid()
      modifies this
      ensures Valid()
      ensures r.Some? <==> id in old(records)
      ensures r.None? ==> records == old(records)
      ensures r.Some? ==> r.value == Merge(old(records)[id], data)
                          && records == old(records)[id := r.value]
      ensures keys == old(keys)
    {
      if id !in records {
        return None;
      }
      var updated := Merge(records[id], data);
      records := records[id := updated];
      r := Some(updated);
    }

    /** delete: removes the record under `id`; says whether there was one. */
    method Delete(id: string) returns (removed: bool)
      requires Valid()
      modifies this
      ensures Valid()
      ensures removed == (id in old(records))
      ensures records == old(records) - {id}
      ensures keys == Without(old(keys), id)
    {
      removed := id in records;
      records := records - {id};
      keys := Without(keys, id);
    }

    /** exists: whether a record is stored under `id`. */
    method Exists(id: string) returns (b: bool)
      ensures b == (id in records)
    {
      b := id in records;
    }

    /** clear: removes every record. */
    method Clear()
      modifies this
      ensures Valid()
      ensures records == map[] && keys == []
    {
      records := map[];
      keys := [];
    }
  }

  /** A client of the table: what add, update, delete and clear promise when combined. */
  method StoreRoundTrips(store: TaskStore, r: TaskRecord, other: string, data: TaskPatch)
    returns (found: Option<TaskRecord>, present: bool, merged: Option<TaskRecord>,
             missing: Option<TaskRecord>, foundAfterDelete: Option<TaskRecord>,
             presentAfterDelete: bool, afterClear: seq<TaskRecord>)
    requires store.Valid() && other != r.id
    modifies store
    ensures found == Some(r) && present
    ensures merged == Some(Merge(r, data))
    ensures missing.Some? <==> other in old(store.records)
    ensures foundAfterDelete == None && !presentAfterDelete
    ensures afterClear == []
  {
    var before := store.records;
    var _ := store.Add(r);
    found := store.GetById(r.id);
    present := store.Exists(r.id);
    assert other in before ==> other in store.records && store.records[other] == before[other];
    merged := store.Update(r.id, data);
    missing := store.Update(other, data);
    var removed := store.Delete(r.id);
    foundAfterDelete := store.GetById(r.id);
    presentAfterDelete := store.Exists(r.id);
    store.Clear();
    afterClear := store.GetAll();
  }
}
