/**
 * The order `taskList` returns: records sorted by the comparator
 * `(a, b) => b.createdAt - a.createdAt` with a stable sort, so newest first
 * and records created at the same instant in their original order.
 */
module TaskOrdering {
  import opened TaskInstance

  /** Negative when `a` goes before `b`, zero when their order is kept. */
  function CompareNewestFirst(a: TaskRecord, b: TaskRecord): (r: int)
    ensures r < 0 <==> a.createdAt > b.createdAt
    ensures r == 0 <==> a.createdAt == b.createdAt
    ensures r > 0 <==> b.createdAt > a.createdAt
  {
    b.createdAt - a.createdAt
  }

  /** createdAt never increases along `s`. */
  predicate NewestFirst(s: seq<TaskRecord>) {
    forall i, j :: 0 <= i < j < |s| ==> s[i].createdAt >= s[j].createdAt
  }

  /** The records of `s` created at instant `t`, in the order of `s`. */
  function TiesAt(s: seq<TaskRecord>, t: int): (r: seq<TaskRecord>)
    ensures |r| <= |s|
  {
    if s == [] then []
    else (if s[0].createdAt == t then [s[0]] else []) + TiesAt(s[1..], t)
  }

  /** Puts `x` in front of the first record it does not come after. */
  function Insert(x: TaskRecord, s: seq<TaskRecord>): (r: seq<TaskRecord>)
    ensures multiset(r) == multiset(s) + multiset{x}
    ensures NewestFirst(s) ==> NewestFirst(r)
  {
    if s == [] then [x]
    else if CompareNewestFirst(x, s[0]) <= 0 then [x] + s
    else
      var rest := Insert(x, s[1..]);
      assert s == [s[0]] + s[1..];
      assert NewestFirst(s) ==> NewestFirst([s[0]] + rest) by {
        if NewestFirst(s) {
          assert NewestFirst(s[1..]);
          ConsNewestFirst(s[0], rest);
        }
      }
      [s[0]] + rest
  }

  /** A record no older than the head of a newest-first list can go in front of it. */
  lemma ConsNewestFirst(h: TaskRecord, t: seq<TaskRecord>)
    requires NewestFirst(t)
    requires t != [] ==> h.createdAt >= t[0].createdAt
    ensures NewestFirst([h] + t)
  {
    forall i, j | 0 <= i < j < |[h] + t|
      ensures ([h] + t)[i].createdAt >= ([h] + t)[j].createdAt
    {
      if i == 0 {
        assert ([h] + t)[j] == t[j - 1];
      } else {
        assert ([h] + t)[i] == t[i - 1] && ([h] + t)[j] == t[j - 1];
      }
    }
  }

  /** Array.prototype.sort with CompareNewestFirst, a stable sort. */
  function SortNewestFirst(s: seq<TaskRecord>): (r: seq<TaskRecord>)
    ensures multiset(r) == multiset(s)
    ensures NewestFirst(r)
  {
    if s == [] then []
    else
      assert s == [s[0]] + s[1..];
      Insert(s[0], SortNewestFirst(s[1..]))
  }

  lemma {:induction false} TiesAtConcat(a: seq<TaskRecord>, b: seq<TaskRecord>, t: int)
    ensures TiesAt(a + b, t) == TiesAt(a, t) + TiesAt(b, t)
    decreases |a|
  {
    if a == [] {
      assert a + b == b;
    } else {
      var head := if a[0].createdAt == t then [a[0]] else [];
      assert (a + b)[0] == a[0] && (a + b)[1..] == a[1..] + b;
      TiesAtConcat(a[1..], b, t);
      calc {
        TiesAt(a + b, t);
        head + TiesAt(a[1..] + b, t);
        head + (TiesAt(a[1..], t) + TiesAt(b, t));
        (head + TiesAt(a[1..], t)) + TiesAt(b, t);
      }
    }
  }

  /**
   * Insert skips only records strictly newer than `x`, so `x` lands in front
   * of every record created at its own instant.
   */
  lemma {:induction false} InsertKeepsTies(x: TaskRecord, s: seq<TaskRecord>, t: int)
    ensures TiesAt(Insert(x, s), t) == TiesAt([x], t) + TiesAt(s, t)
    decreases |s|
  {
    if s == [] {
    } else if CompareNewestFirst(x, s[0]) <= 0 {
      TiesAtConcat([x], s, t);
    } else {
      var rest := Insert(x, s[1..]);
      InsertKeepsTies(x, s[1..], t);
      TiesAtConcat([s[0]], rest, t);
      assert s == [s[0]] + s[1..];
      TiesAtConcat([s[0]], s[1..], t);
    }
  }

  /** The sort is stable: records created at the same instant keep their order. */
  lemma {:induction false} SortIsStable(s: seq<TaskRecord>, t: int)
    ensures TiesAt(SortNewestFirst(s), t) == TiesAt(s, t)
    decreases |s|
  {
    if s != [] {
      SortIsStable(s[1..], t);
      InsertKeepsTies(s[0], SortNewestFirst(s[1..]), t);
      assert s == [s[0]] + s[1..];
      TiesAtConcat([s[0]], s[1..], t);
    }
  }

  lemma {:induction false} InTiesAt(s: seq<TaskRecord>, t: int, x: TaskRecord)
    ensures x in TiesAt(s, t) <==> x in s && x.createdAt == t
    decreases |s|
  {
    if s != [] {
      InTiesAt(s[1..], t, x);
      assert x in s <==> x == s[0] || x in s[1..];
    }
  }

  /** Two newest-first sequences with the same ties start with the same record. */
  lemma SameTiesSameHead(u: seq<TaskRecord>, v: seq<TaskRecord>)
    requires u != [] && v != []
    requires NewestFirst(u) && NewestFirst(v)
    requires forall t :: TiesAt(u, t) == TiesAt(v, t)
    ensures u[0] == v[0]
  {
    var m, w := u[0].createdAt, v[0].createdAt;
    InTiesAt(u, m, u[0]);
    assert TiesAt(u, m) == TiesAt(v, m);
    InTiesAt(v, m, u[0]);
    HeadIsNewest(v, u[0]);
    InTiesAt(v, w, v[0]);
    assert TiesAt(u, w) == TiesAt(v, w);
    InTiesAt(u, w, v[0]);
    HeadIsNewest(u, v[0]);
    assert TiesAt(u, m)[0] == u[0] && TiesAt(v, m)[0] == v[0];
  }

  /** No record of a newest-first sequence is newer than its head. */
  lemma HeadIsNewest(u: seq<TaskRecord>, x: TaskRecord)
    requires NewestFirst(u) && x in u
    ensures u[0].createdAt >= x.createdAt
  {
    var i :| 0 <= i < |u| && u[i] == x;
    if i > 0 {
      assert u[0].createdAt >= u[i].createdAt;
    }
  }

  /** A non-empty sequence has at least its first record among its ties. */
  lemma HeadIsATie(u: seq<TaskRecord>)
    ensures u != [] ==> TiesAt(u, u[0].createdAt) != []
  {
  }

  /**
   * Being newest first and keeping every instant's records in order pins a
   * sequence down: two such sequences with the same ties are equal.
   */
  lemma {:induction false} NewestFirstTiesDetermine(u: seq<TaskRecord>, v: seq<TaskRecord>)
    requires NewestFirst(u) && NewestFirst(v)
    requires forall t :: TiesAt(u, t) == TiesAt(v, t)
    ensures u == v
    decreases |u|
  {
    if u == [] || v == [] {
      HeadIsATie(u);
      HeadIsATie(v);
    } else {
      SameTiesSameHead(u, v);
      forall t
        ensures TiesAt(u[1..], t) == TiesAt(v[1..], t)
      {
        assert u == [u[0]] + u[1..] && v == [v[0]] + v[1..];
        TiesAtConcat([u[0]], u[1..], t);
        TiesAtConcat([v[0]], v[1..], t);
        var h := TiesAt([u[0]], t);
        assert TiesAt([v[0]], t) == h;
        assert TiesAt(u, t) == TiesAt(v, t);
        assert (h + TiesAt(u[1..], t))[|h|..] == TiesAt(u[1..], t);
        assert (h + TiesAt(v[1..], t))[|h|..] == TiesAt(v[1..], t);
      }
      NewestFirstTiesDetermine(u[1..], v[1..]);
      assert u == [u[0]] + u[1..] && v == [v[0]] + v[1..];
    }
  }

  /**
   * The converse of SortIsStable: whatever is newest first and keeps the order
   * of each instant's records as in `s` is the sorted list of `s`.
   */
  lemma SortCharacterised(s: seq<TaskRecord>, r: seq<TaskRecord>)
    requires NewestFirst(r)
    requires forall t :: TiesAt(r, t) == TiesAt(s, t)
    ensures r == SortNewestFirst(s)
  {
    forall t
      ensures TiesAt(r, t) == TiesAt(SortNewestFirst(s), t)
    {
      SortIsStable(s, t);
    }
    NewestFirstTiesDetermine(r, SortNewestFirst(s));
  }

  /** createdAt strictly increases along `s`: the records were made one after another. */
  predicate CreatedInOrder(s: seq<TaskRecord>) {
    forall i, j :: 0 <= i < j < |s| ==> s[i].createdAt < s[j].createdAt
  }

  function Reversed(s: seq<TaskRecord>): (r: seq<TaskRecord>)
    ensures |r| == |s|
    ensures forall i :: 0 <= i < |s| ==> r[i] == s[|s| - 1 - i]
  {
    if s == [] then [] else Reversed(s[1..]) + [s[0]]
  }

  /** A record older than every record of `r` is inserted at the end. */
  lemma {:induction false} InsertOldest(x: TaskRecord, r: seq<TaskRecord>)
    requires forall i :: 0 <= i < |r| ==> x.createdAt < r[i].createdAt
    ensures Insert(x, r) == r + [x]
    decreases |r|
  {
    if r != [] {
      InsertOldest(x, r[1..]);
      assert r + [x] == [r[0]] + (r[1..] + [x]);
    }
  }

  /** Records created one after another are listed in the reverse of that order. */
  lemma {:induction false} SortReversesCreationOrder(s: seq<TaskRecord>)
    requires CreatedInOrder(s)
    ensures SortNewestFirst(s) == Reversed(s)
    decreases |s|
  {
    if s != [] {
      var tail := s[1..];
      assert SortNewestFirst(s) == Insert(s[0], SortNewestFirst(tail));
      assert Reversed(s) == Reversed(tail) + [s[0]];
      FirstIsOldest(s);
      SortReversesCreationOrder(tail);
      InsertOldest(s[0], Reversed(tail));
    }
  }

  /** In creation order, the first record is older than the rest, in whatever order. */
  lemma FirstIsOldest(s: seq<TaskRecord>)
    requires s != [] && CreatedInOrder(s)
    ensures CreatedInOrder(s[1..])
    ensures forall i :: 0 <= i < |s| - 1 ==> s[0].createdAt < Reversed(s[1..])[i].createdAt
  {
    var r := Reversed(s[1..]);
    forall i | 0 <= i < |s| - 1
      ensures s[0].createdAt < r[i].createdAt
    {
      assert r[i] == s[|s| - 1 - i];
    }
  }

  /** Every record of `s` was created before `now`. */
  predicate CreatedBefore(s: seq<TaskRecord>, now: int) {
    forall i :: 0 <= i < |s| ==> s[i].createdAt < now
  }

  /** A record newer than all of a creation-ordered list extends it in creation order. */
  lemma AppendNewest(s: seq<TaskRecord>, x: TaskRecord)
    requires CreatedInOrder(s) && CreatedBefore(s, x.createdAt)
    ensures CreatedInOrder(s + [x])
  {
    forall i, j | 0 <= i < j < |s + [x]|
      ensures (s + [x])[i].createdAt < (s + [x])[j].createdAt
    {
      assert (s + [x])[i] == s[i];
    }
  }
}
