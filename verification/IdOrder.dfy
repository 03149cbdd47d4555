/** Integer ids in increasing order, as `sorted(...)` lists them. */
module IdOrder {
  /** `ids` lists `s` in increasing order, each id once. */
  ghost predicate Sorts(ids: seq<int>, s: set<int>) {
    && (forall i, j :: 0 <= i < j < |ids| ==> ids[i] < ids[j])
    && (forall x :: x in ids <==> x in s)
  }

  function Insert(x: int, ids: seq<int>): (r: seq<int>)
    ensures forall y :: y in r <==> y == x || y in ids
  {
    if ids == [] || x < ids[0] then [x] + ids else [ids[0]] + Insert(x, ids[1..])
  }

  lemma {:induction false} InsertSorts(x: int, ids: seq<int>, s: set<int>)
    requires Sorts(ids, s) && x !in s
    ensures Sorts(Insert(x, ids), s + {x})
    decreases |ids|
  {
    if ids != [] {
      var m := ids[0];
      assert forall i :: 0 <= i < |ids| ==> ids[i] in ids;
      if x > m {
        forall y ensures y in ids[1..] <==> y in s - {m} { TailMembers(ids, y); }
        InsertSorts(x, ids[1..], s - {m});
        var rest := Insert(x, ids[1..]);
        assert forall i :: 0 <= i < |rest| ==> rest[i] in rest;
      }
    }
  }

  lemma Inhabited(s: set<int>)
    ensures s == {} || exists x :: x in s
  {
    if forall x :: x !in s { assert s == {}; }
  }

  ghost function Ascending(s: set<int>): (ids: seq<int>)
    ensures Sorts(ids, s)
    decreases s
  {
    if s == {} then []
    else
      Inhabited(s);
      var x :| x in s;
      InsertSorts(x, Ascending(s - {x}), s - {x});
      assert s - {x} + {x} == s;
      Insert(x, Ascending(s - {x}))
  }

  /** There is only one such list. */
  lemma {:induction false} SortsOnce(a: seq<int>, b: seq<int>, s: set<int>)
    requires Sorts(a, s) && Sorts(b, s)
    ensures a == b
    decreases |a|
  {
    if a == [] {
      assert forall i :: 0 <= i < |b| ==> b[i] in b;
    } else {
      assert a[0] in a && a[0] in s && a[0] in b;
      assert b[0] in b && b[0] in s && b[0] in a;
      var m := a[0];
      assert b[0] == m;
      forall x ensures x in a[1..] <==> x in s - {m} { TailMembers(a, x); }
      forall x ensures x in b[1..] <==> x in s - {m} { TailMembers(b, x); }
      SortsOnce(a[1..], b[1..], s - {m});
    }
  }

  lemma TailMembers(a: seq<int>, x: int)
    requires a != [] && forall i, j :: 0 <= i < j < |a| ==> a[i] < a[j]
    ensures x in a[1..] <==> x in a && x != a[0]
  {
    if x in a && x != a[0] {
      var i :| 0 <= i < |a| && a[i] == x;
      assert a[1..][i - 1] == x;
    }
  }

  /** The ids of the list that belong to `keep`, in the same order. */
  function Filter(ids: seq<int>, keep: set<int>): (r: seq<int>)
    ensures forall x :: x in r <==> x in ids && x in keep
    ensures forall i :: 0 <= i < |r| ==> r[i] in ids && r[i] in keep
  {
    if ids == [] then []
    else if ids[0] in keep then [ids[0]] + Filter(ids[1..], keep)
    else Filter(ids[1..], keep)
  }

  lemma {:induction false} FilterSorts(ids: seq<int>, s: set<int>, keep: set<int>)
    requires Sorts(ids, s) && keep <= s
    ensures Sorts(Filter(ids, keep), keep)
    decreases |ids|
  {
    if ids != [] {
      var m := ids[0];
      forall x ensures x in ids[1..] <==> x in s - {m} { TailMembers(ids, x); }
      FilterSorts(ids[1..], s - {m}, keep - {m});
      FilterWithout(ids[1..], keep, m);
      var rest := Filter(ids[1..], keep);
      assert forall i :: 0 <= i < |rest| ==> rest[i] in rest;
    }
  }

  lemma {:induction false} FilterWithout(ids: seq<int>, keep: set<int>, m: int)
    requires m !in ids
    ensures Filter(ids, keep - {m}) == Filter(ids, keep)
  {
    if ids != [] { FilterWithout(ids[1..], keep, m); }
  }
}
