/** The column order of the results table (app.py:166-174): the priority
    columns that exist, in their fixed order, then every other column in the
    order the table already had. */
module Columns {

  /** A column name of the results table. */
  type Column = string

  /** The priority columns, in the order they are shown. */
  const PriorityCols: seq<Column> :=
    ["id", "status_code", "main_disposition", "sub_disposition", "response_json", "error"]

  predicate NoDups(s: seq<Column>)
  {
    forall i, j :: 0 <= i < j < |s| ==> s[i] != s[j]
  }

  /** `[c for c in s if c in among]`: the elements of `s` that `among` has,
      in the order of `s`. */
  function Present(s: seq<Column>, among: seq<Column>): (r: seq<Column>)
    ensures |r| <= |s|
  {
    if s == [] then []
    else (if s[0] in among then [s[0]] else []) + Present(s[1..], among)
  }

  /** `[c for c in s if c not in among]`: the elements of `s` that `among`
      lacks, in the order of `s`. */
  function Absent(s: seq<Column>, among: seq<Column>): (r: seq<Column>)
    ensures |r| <= |s|
  {
    if s == [] then []
    else (if s[0] !in among then [s[0]] else []) + Absent(s[1..], among)
  }

  /** The reorder as written: the existing priority columns, then the
      columns that are not among them. It shows exactly the columns the
      table has: none is invented and none is lost. */
  function Reorder(priority: seq<Column>, cols: seq<Column>): (r: seq<Column>)
    ensures forall x :: x in r <==> x in cols
  {
    var existing := Present(priority, cols);
    FilterMembers(priority, cols);
    FilterMembers(cols, existing);
    existing + Absent(cols, existing)
  }

  /** A column survives `Present` exactly when both lists have it, and
      survives `Absent` exactly when the first has it and the second lacks it. */
  lemma {:induction false} FilterMembers(s: seq<Column>, among: seq<Column>)
    ensures forall x :: x in Present(s, among) <==> x in s && x in among
    ensures forall x :: x in Absent(s, among) <==> x in s && x !in among
  {
    if s != [] {
      FilterMembers(s[1..], among);
      assert s == [s[0]] + s[1..];
    }
  }

  /** Filtering a concatenation filters each part. */
  lemma {:induction false} PresentAppend(s: seq<Column>, t: seq<Column>, among: seq<Column>)
    ensures Present(s + t, among) == Present(s, among) + Present(t, among)
  {
    if s == [] {
      assert s + t == t;
    } else {
      var st := s + t;
      assert st[0] == s[0] && st[1..] == s[1..] + t;
      PresentAppend(s[1..], t, among);
      var h := if s[0] in among then [s[0]] else [];
      assert Present(st, among) == h + Present(s[1..] + t, among);
      assert Present(s, among) == h + Present(s[1..], among);
    }
  }

  /** Filtering a concatenation filters each part. */
  lemma {:induction false} AbsentAppend(s: seq<Column>, t: seq<Column>, among: seq<Column>)
    ensures Absent(s + t, among) == Absent(s, among) + Absent(t, among)
  {
    if s == [] {
      assert s + t == t;
    } else {
      var st := s + t;
      assert st[0] == s[0] && st[1..] == s[1..] + t;
      AbsentAppend(s[1..], t, among);
      var h := if s[0] !in among then [s[0]] else [];
      assert Absent(st, among) == h + Absent(s[1..] + t, among);
      assert Absent(s, among) == h + Absent(s[1..], among);
    }
  }

  /** Filtering on a list that every element has keeps everything. */
  lemma {:induction false} PresentAll(s: seq<Column>, among: seq<Column>)
    requires forall x :: x in s ==> x in among
    ensures Present(s, among) == s && Absent(s, among) == []
  {
    if s != [] {
      PresentAll(s[1..], among);
    }
  }

  /** Filtering on a list that no element has keeps nothing. */
  lemma {:induction false} PresentNone(s: seq<Column>, among: seq<Column>)
    requires forall x :: x in s ==> x !in among
    ensures Present(s, among) == [] && Absent(s, among) == s
  {
    if s != [] {
      PresentNone(s[1..], among);
    }
  }

  /** Only membership in the list filtered on matters. */
  lemma {:induction false} AbsentSameMembers(s: seq<Column>, a: seq<Column>, b: seq<Column>)
    requires forall x :: x in s ==> (x in a <==> x in b)
    ensures Absent(s, a) == Absent(s, b)
  {
    if s != [] {
      AbsentSameMembers(s[1..], a, b);
    }
  }

  /** The two filters split `s`. */
  lemma {:induction false} SplitMultiset(s: seq<Column>, among: seq<Column>)
    ensures multiset(Present(s, among)) + multiset(Absent(s, among)) == multiset(s)
  {
    if s != [] {
      var tail := s[1..];
      SplitMultiset(tail, among);
      assert s == [s[0]] + tail;
      if s[0] in among {
        assert Present(s, among) == [s[0]] + Present(tail, among);
        assert Absent(s, among) == Absent(tail, among);
      } else {
        assert Present(s, among) == Present(tail, among);
        assert Absent(s, among) == [s[0]] + Absent(tail, among);
      }
    }
  }

  /** A filter of a list without duplicates has none. */
  lemma {:induction false} PresentNoDups(s: seq<Column>, among: seq<Column>)
    requires NoDups(s)
    ensures NoDups(Present(s, among))
  {
    if s != [] {
      PresentNoDups(s[1..], among);
      FilterMembers(s[1..], among);
    }
  }

  /** In a list without duplicates every member occurs once. */
  lemma {:induction false} NoDupsCount(s: seq<Column>, x: Column)
    requires NoDups(s)
    ensures multiset(s)[x] == if x in s then 1 else 0
  {
    if s != [] {
      NoDupsCount(s[1..], x);
      assert s == [s[0]] + s[1..];
    }
  }

  /** The reorder is a stable partition of the columns: priority columns come
      first, they are exactly the priority columns that exist, in priority
      order, and the other columns follow in their original order. */
  lemma ReorderPartition(priority: seq<Column>, cols: seq<Column>)
    ensures var r := Reorder(priority, cols);
      && (forall i, j :: 0 <= i < j < |r| && r[j] in priority ==> r[i] in priority)
      && Present(r, priority) == Present(priority, cols)
      && Absent(r, priority) == Absent(cols, priority)
  {
    var existing := Present(priority, cols);
    var remaining := Absent(cols, existing);
    var r := existing + remaining;
    FilterMembers(priority, cols);
    FilterMembers(cols, existing);
    AbsentSameMembers(cols, existing, priority);
    assert forall x :: x in remaining ==> x !in priority;
    forall i, j | 0 <= i < j < |r| && r[j] in priority ensures r[i] in priority {
      if j < |existing| {
        assert r[i] == existing[i];
      }
    }
    PresentAppend(existing, remaining, priority);
    AbsentAppend(existing, remaining, priority);
    PresentAll(existing, priority);
    PresentNone(remaining, priority);
  }

  /** When the priority list and the columns have no duplicates, the reorder
      is a permutation of the columns: nothing is lost or repeated. */
  lemma ReorderPermutes(priority: seq<Column>, cols: seq<Column>)
    requires NoDups(priority) && NoDups(cols)
    ensures multiset(Reorder(priority, cols)) == multiset(cols)
  {
    var existing := Present(priority, cols);
    var kept := Present(cols, existing);
    PresentNoDups(priority, cols);
    PresentNoDups(cols, existing);
    FilterMembers(priority, cols);
    FilterMembers(cols, existing);
    forall x ensures multiset(existing)[x] == multiset(kept)[x] {
      NoDupsCount(existing, x);
      NoDupsCount(kept, x);
    }
    assert multiset(existing) == multiset(kept);
    SplitMultiset(cols, existing);
  }

  /** Every merged record has all six priority columns, so a non-empty
      results table shows them first, in exactly the fixed order. */
  lemma ReorderAllPresent(cols: seq<Column>)
    requires forall c :: c in PriorityCols ==> c in cols
    ensures |ReorderColumns(cols)| >= |PriorityCols|
    ensures ReorderColumns(cols)[..|PriorityCols|] == PriorityCols
  {
    PresentAll(PriorityCols, cols);
  }

  /** The fixed priority list has no duplicates, so the permutation property
      applies to the table's columns. */
  lemma PriorityColsDistinct()
    ensures NoDups(PriorityCols)
  {
  }

  /** The reorder applied to the results table's columns: the same columns,
      each exactly once when the table has no duplicate column names. */
  function ReorderColumns(cols: seq<Column>): (r: seq<Column>)
    ensures forall x :: x in r <==> x in cols
    ensures NoDups(cols) ==> multiset(r) == multiset(cols)
  {
    PriorityColsDistinct();
    var r := Reorder(PriorityCols, cols);
    if NoDups(cols) then ReorderPermutes(PriorityCols, cols); r else r
  }
}
