/** The list handler's pure part: an optional status filter and an optional
    sort by creation time over a copy of the store. */
module Listing {
  import opened Tasks

  /** `r` can be obtained from `s` by deleting elements: the relative order
      of what is kept is the order in `s`. */
  predicate Subsequence(r: seq<Task>, s: seq<Task>)
    decreases |s|
  {
    if r == [] then true
    else if s == [] then false
    else if r[0] == s[0] then Subsequence(r[1..], s[1..])
    else Subsequence(r, s[1..])
  }

  lemma {:induction false} SubsequenceReflexive(s: seq<Task>)
    ensures Subsequence(s, s)
  {
    if s != [] {
      SubsequenceReflexive(s[1..]);
    }
  }

  /** The tasks of `tasks` whose status equals `status`, in their order. */
  function FilterByStatus(tasks: seq<Task>, status: string): (r: seq<Task>)
    ensures forall t :: t in r <==> t in tasks && t.status == status
    ensures forall t :: multiset(r)[t] == if t.status == status then multiset(tasks)[t] else 0
    ensures Subsequence(r, tasks)
  {
    if tasks == [] then []
    else
      var rest := FilterByStatus(tasks[1..], status);
      assert tasks == [tasks[0]] + tasks[1..];
      if tasks[0].status == status then
        assert ([tasks[0]] + rest)[1..] == rest;
        [tasks[0]] + rest
      else
        assert rest != [] ==> rest[0] != tasks[0];
        rest
  }

  lemma {:induction false} SubsequenceMultiset(r: seq<Task>, s: seq<Task>)
    requires Subsequence(r, s)
    ensures multiset(r) <= multiset(s)
    decreases |s|
  {
    if r != [] {
      assert s == [s[0]] + s[1..];
      if r[0] == s[0] {
        SubsequenceMultiset(r[1..], s[1..]);
        assert r == [r[0]] + r[1..];
      } else {
        SubsequenceMultiset(r, s[1..]);
      }
    }
  }

  /** The filter's contract determines its result: the only subsequence of
      `tasks` holding each task of that status as often as `tasks` does, and
      nothing else, is `FilterByStatus(tasks, status)`. */
  lemma {:induction false} FilterUnique(r: seq<Task>, tasks: seq<Task>, status: string)
    requires Subsequence(r, tasks)
    requires forall t :: multiset(r)[t] == if t.status == status then multiset(tasks)[t] else 0
    ensures r == FilterByStatus(tasks, status)
  {
    if tasks != [] {
      var t0, rest := tasks[0], tasks[1..];
      assert tasks == [t0] + rest;
      if t0.status == status {
        assert multiset(r)[t0] == multiset(rest)[t0] + 1;
        assert r != [];
        if r[0] != t0 {
          SubsequenceMultiset(r, rest);
          assert false;
        }
        assert r == [t0] + r[1..];
        assert forall t :: multiset(r[1..])[t] == if t.status == status then multiset(rest)[t] else 0 by {
          assert multiset(r) == multiset{t0} + multiset(r[1..]);
        }
        FilterUnique(r[1..], rest, status);
      } else {
        assert multiset(r)[t0] == 0;
        assert r != [] ==> r[0] != t0 by {
          if r != [] { assert r[0] in multiset(r); }
        }
        FilterUnique(r, rest, status);
      }
    }
  }

  /** Strictly increasing ids; in the store this is insertion order. */
  predicate IdsIncreasing(s: seq<Task>)
  {
    forall i, j :: 0 <= i < j < |s| ==> s[i].id < s[j].id
  }

  /** Filtering the store keeps its insertion order. */
  lemma {:induction false} FilterKeepsIdOrder(tasks: seq<Task>, status: string)
    requires IdsIncreasing(tasks)
    ensures IdsIncreasing(FilterByStatus(tasks, status))
  {
    if tasks != [] {
      FilterKeepsIdOrder(tasks[1..], status);
      var rest := FilterByStatus(tasks[1..], status);
      if tasks[0].status == status {
        forall j | 0 <= j < |rest| ensures tasks[0].id < rest[j].id {
          assert rest[j] in tasks[1..];
        }
      }
    }
  }

  /** The comparator of the list handler: `a` may stay before `b`. With
      `ascending` it is `a.createdAt - b.createdAt <= 0`, otherwise
      `b.createdAt - a.createdAt <= 0`. */
  predicate Before(a: Task, b: Task, ascending: bool)
  {
    if ascending then a.createdAt <= b.createdAt else a.createdAt >= b.createdAt
  }

  predicate Ordered(s: seq<Task>, ascending: bool)
  {
    forall i, j :: 0 <= i < j < |s| ==> Before(s[i], s[j], ascending)
  }

  /** Puts `x` in front of the first element it may precede. */
  function Insert(x: Task, s: seq<Task>, ascending: bool): (r: seq<Task>)
    ensures multiset(r) == multiset(s) + multiset{x}
  {
    if s == [] then [x]
    else if Before(x, s[0], ascending) then [x] + s
    else
      assert s == [s[0]] + s[1..];
      [s[0]] + Insert(x, s[1..], ascending)
  }

  lemma {:induction false} InsertOrdered(x: Task, s: seq<Task>, ascending: bool)
    requires Ordered(s, ascending)
    ensures Ordered(Insert(x, s, ascending), ascending)
  {
    if s != [] && !Before(x, s[0], ascending) {
      var rest := Insert(x, s[1..], ascending);
      InsertOrdered(x, s[1..], ascending);
      forall j | 0 <= j < |rest| ensures Before(s[0], rest[j], ascending) {
        assert rest[j] in multiset(rest);
        assert rest[j] == x || rest[j] in s[1..];
      }
      assert Insert(x, s, ascending) == [s[0]] + rest;
    }
  }

  /** A stable sort by creation time: `Array.prototype.sort` keeps the
      relative order of elements its comparator calls equal. */
  function SortByCreated(s: seq<Task>, ascending: bool): (r: seq<Task>)
    ensures multiset(r) == multiset(s)
    ensures Ordered(r, ascending)
  {
    if s == [] then []
    else
      assert s == [s[0]] + s[1..];
      InsertOrdered(s[0], SortByCreated(s[1..], ascending), ascending);
      Insert(s[0], SortByCreated(s[1..], ascending), ascending)
  }

  /** The tasks of `s` created at time `k`, in their order. */
  function CreatedAt(s: seq<Task>, k: nat): seq<Task>
  {
    if s == [] then []
    else (if s[0].createdAt == k then [s[0]] else []) + CreatedAt(s[1..], k)
  }

  lemma {:induction false} InsertStable(x: Task, s: seq<Task>, ascending: bool, k: nat)
    ensures CreatedAt(Insert(x, s, ascending), k)
         == (if x.createdAt == k then [x] else []) + CreatedAt(s, k)
  {
    var hx := if x.createdAt == k then [x] else [];
    if s == [] {
      assert [x][1..] == [];
      assert CreatedAt([x], k) == hx + CreatedAt([], k);
    } else if Before(x, s[0], ascending) {
      assert ([x] + s)[1..] == s;
      assert CreatedAt([x] + s, k) == hx + CreatedAt(s, k);
    } else {
      var rest := Insert(x, s[1..], ascending);
      var h0 := if s[0].createdAt == k then [s[0]] else [];
      InsertStable(x, s[1..], ascending, k);
      assert ([s[0]] + rest)[1..] == rest;
      assert CreatedAt([s[0]] + rest, k) == h0 + (hx + CreatedAt(s[1..], k));
      assert CreatedAt(s, k) == h0 + CreatedAt(s[1..], k);
      assert h0 == [] || hx == [];
      assert h0 + (hx + CreatedAt(s[1..], k)) == hx + (h0 + CreatedAt(s[1..], k));
    }
  }

  /** Sorting keeps the relative order of tasks created at the same time. */
  lemma {:induction false} SortStable(s: seq<Task>, ascending: bool, k: nat)
    ensures CreatedAt(SortByCreated(s, ascending), k) == CreatedAt(s, k)
  {
    if s != [] {
      SortStable(s[1..], ascending, k);
      InsertStable(s[0], SortByCreated(s[1..], ascending), ascending, k);
    }
  }
}
