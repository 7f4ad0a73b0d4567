/** The batch: every input row is fetched once, and as each fetch completes
    its record is merged onto the row it came from and appended to the
    results (app.py:140-159). The thread pool is abstracted to the order in
    which the fetches complete, an arbitrary permutation of the row indices. */
module Batch {
  import opened Json
  import opened Fetch
  import Columns

  /** An input row, or a merged record: column name to cell. */
  type Row = map<string, Json>

  /** The upload has been checked to have an `id` column, made of strings. */
  predicate HasId(row: Row)
  {
    "id" in row && row["id"].Str?
  }

  /** The identifier the row's fetch is submitted with. */
  function RowId(row: Row): (id: string)
    requires HasId(row)
    ensures row["id"] == Str(id)
  {
    row["id"].s
  }

  /** `{**original_row, **data}`: every key of either side, with the value
      from `data` wherever both have the key. */
  function Merge(row: Row, data: Row): (m: Row)
    ensures m.Keys == row.Keys + data.Keys
    ensures forall k :: k in data ==> m[k] == data[k]
    ensures forall k :: k in row && k !in data ==> m[k] == row[k]
  {
    row + data
  }

  /** What completing the fetch of one row yields: the merged record, or the
      exception that `future.result()` re-raises. */
  function Process(cfg: Config, row: Row, net: Network): (r: Eval<Row>)
    requires HasId(row)
    ensures r.Raised? <==> FetchData(cfg, RowId(row), net).Raised?
    ensures r.Raised? ==> r.error == FetchData(cfg, RowId(row), net).error
  {
    match FetchData(cfg, RowId(row), net)
    case Raised(e) => Raised(e)
    case Value(rec) => Value(Merge(row, AsDict(rec)))
  }

  /** Completing one fetch either re-raises its exception or merges its
      record onto the row: the definition of `Process` unfolded, for use in
      the collection loop, which performs the two steps separately. */
  lemma ProcessStep(cfg: Config, row: Row, net: Network)
    requires HasId(row)
    ensures var data := FetchData(cfg, RowId(row), net);
      && (data.Raised? ==> Process(cfg, row, net) == Raised(data.error))
      && (data.Value? ==> Process(cfg, row, net) == Value(Merge(row, AsDict(data.value))))
  {
  }

  /** A merged record keeps every column of its row that `fetch_data` does
      not also produce, and takes the seven result columns from the fetch;
      its identifier is the row's own. */
  lemma MergedRecord(cfg: Config, row: Row, net: Network)
    requires HasId(row)
    requires Process(cfg, row, net).Value?
    ensures var m, rec := Process(cfg, row, net).value, FetchData(cfg, RowId(row), net).value;
      && m.Keys == row.Keys + {"id", "full_url", "status_code", MainKey, SubKey, "response_json", "error"}
      && m["id"] == row["id"]
      && m["full_url"] == Str(cfg.urlPre + RowId(row) + cfg.urlPost)
      && m["status_code"] == Int(rec.statusCode) && m["error"] == Str(rec.error)
      && m["response_json"] == Str(rec.responseJson)
      && m[MainKey] == rec.mainDisposition && m[SubKey] == rec.subDisposition
      && (m["error"] != Str("") ==> m["status_code"] == Int(TransportFailure))
      && (forall k :: k in row && k !in AsDict(rec) ==> m[k] == row[k])
  {
    var rec := FetchData(cfg, RowId(row), net).value;
    assert AsDict(rec)["full_url"] == Str(rec.fullUrl);
  }

  /** Every merged record holds all the priority columns, so the reorder of
      a non-empty results table always puts exactly those first. */
  lemma MergedHasPriorityColumns(cfg: Config, row: Row, net: Network)
    requires HasId(row)
    requires Process(cfg, row, net).Value?
    ensures forall c :: c in Columns.PriorityCols ==> c in Process(cfg, row, net).value
  {
    MergedRecord(cfg, row, net);
  }

  /** 0, 1, ..., n-1: the row indices in input order. */
  function Indices(n: nat): (s: seq<nat>)
    ensures |s| == n
    ensures forall i :: 0 <= i < n ==> s[i] == i
  {
    if n == 0 then [] else Indices(n - 1) + [n - 1]
  }

  /** `as_completed` yields every submitted future exactly once: the order of
      completion is a permutation of the row indices. */
  predicate IsCompletionOrder(order: seq<nat>, n: nat)
  {
    multiset(order) == multiset(Indices(n))
  }

  /** Each index below n occurs once in the input order, and no other does. */
  lemma {:induction false} IndicesCount(n: nat, i: nat)
    ensures multiset(Indices(n))[i] == if i < n then 1 else 0
  {
    if n == 0 {
      assert Indices(n) == [];
    } else {
      var last: nat := n - 1;
      IndicesCount(last, i);
      assert multiset(Indices(n)) == multiset(Indices(last)) + multiset{last};
      assert multiset{last}[i] == if i == last then 1 else 0;
    }
  }

  /** In a completion order every row completes exactly once, and nothing
      but the rows completes. */
  lemma CompletionOrderFacts(order: seq<nat>, n: nat)
    requires IsCompletionOrder(order, n)
    ensures |order| == n
    ensures forall k :: 0 <= k < |order| ==> order[k] < n
    ensures forall i :: 0 <= i < n ==> i in order
    ensures forall i :: 0 <= i < n ==> multiset(order)[i] == 1
  {
    assert |multiset(order)| == |order|;
    forall k | 0 <= k < |order| ensures order[k] < n {
      assert order[k] in multiset(order);
      IndicesCount(n, order[k]);
    }
    forall i | 0 <= i < n ensures i in order && multiset(order)[i] == 1 {
      IndicesCount(n, i);
    }
  }

  /** A completion order lists exactly n indices, all of them below n. */
  lemma CompletionOrderInRange(order: seq<nat>, n: nat)
    requires IsCompletionOrder(order, n)
    ensures |order| == n && InRange(order, n)
  {
    CompletionOrderFacts(order, n);
  }

  /** The elements of `xs` in the order `order` lists their indices. */
  function Permute<T>(xs: seq<T>, order: seq<nat>): (r: seq<T>)
    requires InRange(order, |xs|)
  {
    seq(|order|, k requires 0 <= k < |order| => xs[order[k]])
  }

  /** All indices in `order` are indices of `xs`. */
  predicate InRange(order: seq<nat>, n: nat)
  {
    forall k :: 0 <= k < |order| ==> order[k] < n
  }

  /** Reading `xs` around one position `j` of `order`: the read is the read
      without position j, with the element at `order[j]` put back at j. */
  lemma PermuteSplit<T>(xs: seq<T>, order: seq<nat>, j: nat)
    requires InRange(order, |xs|) && j < |order|
    ensures InRange(order[..j] + order[j + 1..], |xs|)
    ensures var q := Permute(xs, order[..j] + order[j + 1..]);
      Permute(xs, order) == q[..j] + [xs[order[j]]] + q[j..]
  {
    var rest := order[..j] + order[j + 1..];
    assert |rest| == |order| - 1;
    forall k | 0 <= k < |rest| ensures rest[k] == if k < j then order[k] else order[k + 1] {
      if k < j {
        assert rest[k] == order[..j][k];
      } else {
        assert rest[k] == order[j + 1..][k - j];
      }
    }
    var p, q := Permute(xs, order), Permute(xs, rest);
    var s := q[..j] + [xs[order[j]]] + q[j..];
    assert |s| == |p|;
    forall k | 0 <= k < |p| ensures p[k] == s[k] {
      if k < j {
        assert s[k] == q[k];
      } else if k > j {
        assert s[k] == q[k - 1];
      }
    }
  }

  /** Dropping position j of `order` drops exactly the element read there. */
  lemma PermuteDrop<T>(xs: seq<T>, order: seq<nat>, j: nat)
    requires InRange(order, |xs|) && j < |order|
    ensures InRange(order[..j] + order[j + 1..], |xs|)
    ensures multiset(Permute(xs, order))
            == multiset(Permute(xs, order[..j] + order[j + 1..])) + multiset{xs[order[j]]}
  {
    PermuteSplit(xs, order, j);
    var p, q := Permute(xs, order), Permute(xs, order[..j] + order[j + 1..]);
    assert q == q[..j] + q[j..];
    calc {
      multiset(p);
      multiset(q[..j]) + multiset{xs[order[j]]} + multiset(q[j..]);
      multiset(q) + multiset{xs[order[j]]};
    }
  }

  /** Dropping position j of `s` drops one occurrence of `s[j]`. */
  lemma DropOne(s: seq<nat>, j: nat)
    requires j < |s|
    ensures multiset(s[..j] + s[j + 1..]) == multiset(s) - multiset{s[j]}
  {
    assert s == s[..j] + [s[j]] + s[j + 1..];
  }

  /** Dropping a shared index from two index sequences with the same
      elements leaves two with the same elements. */
  lemma DropSharedIndex(a: seq<nat>, b: seq<nat>, j: nat)
    requires multiset(a) == multiset(b)
    requires 0 < |a| && j < |b| && b[j] == a[0]
    ensures multiset(a[..0] + a[1..]) == multiset(b[..j] + b[j + 1..])
  {
    DropOne(a, 0);
    DropOne(b, j);
    calc {
      multiset(a[..0] + a[1..]);
      multiset(a) - multiset{a[0]};
      multiset(b) - multiset{b[j]};
      multiset(b[..j] + b[j + 1..]);
    }
  }

  /** Dropping a shared index from two index sequences drops the same
      element from both reads. */
  lemma DropShared<T>(xs: seq<T>, a: seq<nat>, b: seq<nat>, j: nat)
    requires InRange(a, |xs|) && InRange(b, |xs|)
    requires 0 < |a| && j < |b| && b[j] == a[0]
    ensures InRange(a[..0] + a[1..], |xs|) && InRange(b[..j] + b[j + 1..], |xs|)
    ensures multiset(Permute(xs, a[..0] + a[1..])) == multiset(Permute(xs, b[..j] + b[j + 1..])) ==>
              multiset(Permute(xs, a)) == multiset(Permute(xs, b))
  {
    PermuteDrop(xs, a, 0);
    PermuteDrop(xs, b, j);
  }

  /** Reading `xs` through two index sequences with the same elements gives
      two sequences with the same elements. */
  lemma {:induction false} PermuteSameIndices<T>(xs: seq<T>, a: seq<nat>, b: seq<nat>)
    requires InRange(a, |xs|) && InRange(b, |xs|)
    requires multiset(a) == multiset(b)
    ensures multiset(Permute(xs, a)) == multiset(Permute(xs, b))
    decreases |a|
  {
    if a == [] {
      assert |multiset(b)| == 0;
    } else {
      assert a[0] in multiset(b);
      var j :| 0 <= j < |b| && b[j] == a[0];
      DropSharedIndex(a, b, j);
      DropShared(xs, a, b, j);
      PermuteSameIndices(xs, a[..0] + a[1..], b[..j] + b[j + 1..]);
    }
  }

  /** Reading `xs` in any completion order gives the elements of `xs`, each
      as often as it occurs. */
  lemma CompletionOrderPermutes<T>(xs: seq<T>, order: seq<nat>)
    requires IsCompletionOrder(order, |xs|)
    ensures forall k :: 0 <= k < |order| ==> order[k] < |xs|
    ensures multiset(Permute(xs, order)) == multiset(xs)
  {
    CompletionOrderFacts(order, |xs|);
    PermuteSameIndices(xs, order, Indices(|xs|));
    assert Permute(xs, Indices(|xs|)) == xs;
  }

  /** The outcome of a run: every merged record in completion order, or the
      exception that aborted the loop after `completed` records. */
  datatype BatchResult =
    | Finished(records: seq<Row>)
    | Aborted(error: PyError, completed: nat)

  /** The merged records in input order, when no row's fetch raises. */
  function InputOrderRecords(cfg: Config, rows: seq<Row>, network: seq<Network>): (r: seq<Row>)
    requires |network| == |rows|
    requires forall i :: 0 <= i < |rows| ==> HasId(rows[i]) && Process(cfg, rows[i], network[i]).Value?
    ensures |r| == |rows|
  {
    seq(|rows|, i requires 0 <= i < |rows| => Process(cfg, rows[i], network[i]).value)
  }

  /** When every fetch yielded by the completion order returned a record,
      every row's fetch did. */
  lemma EveryRowCompleted(cfg: Config, rows: seq<Row>, network: seq<Network>, order: seq<nat>)
    requires forall i :: 0 <= i < |rows| ==> HasId(rows[i])
    requires |network| == |rows|
    requires IsCompletionOrder(order, |rows|)
    requires forall k :: 0 <= k < |order| ==>
               order[k] < |rows| && Process(cfg, rows[order[k]], network[order[k]]).Value?
    ensures forall i :: 0 <= i < |rows| ==> Process(cfg, rows[i], network[i]).Value?
  {
    CompletionOrderFacts(order, |rows|);
    forall i | 0 <= i < |rows| ensures Process(cfg, rows[i], network[i]).Value? {
      assert i in order;
      var k :| 0 <= k < |order| && order[k] == i;
      assert Process(cfg, rows[order[k]], network[order[k]]).Value?;
    }
  }

  /** Records collected for every completion, in completion order, are the
      input-order records read in that order, and so a permutation of them. */
  lemma CollectedRecords(cfg: Config, rows: seq<Row>, network: seq<Network>, order: seq<nat>,
                         results: seq<Row>)
    requires forall i :: 0 <= i < |rows| ==> HasId(rows[i])
    requires |network| == |rows|
    requires IsCompletionOrder(order, |rows|)
    requires |results| == |order|
    requires forall k :: 0 <= k < |order| ==>
               order[k] < |rows| && Process(cfg, rows[order[k]], network[order[k]]) == Value(results[k])
    ensures forall i :: 0 <= i < |rows| ==> Process(cfg, rows[i], network[i]).Value?
    ensures InRange(order, |rows|)
    ensures results == Permute(InputOrderRecords(cfg, rows, network), order)
    ensures multiset(results) == multiset(InputOrderRecords(cfg, rows, network))
  {
    EveryRowCompleted(cfg, rows, network, order);
    var inputOrder := InputOrderRecords(cfg, rows, network);
    var permuted := Permute(inputOrder, order);
    assert |permuted| == |results|;
    forall k | 0 <= k < |order| ensures results[k] == permuted[k] {
      var i := order[k];
      assert permuted[k] == inputOrder[i] == Process(cfg, rows[i], network[i]).value;
    }
    CompletionOrderPermutes(inputOrder, order);
  }

  /** The outcome of every row's fetch, by row index: what `future.result()`
      yields for it, merged onto the row. */
  lemma RowOutcomes(cfg: Config, rows: seq<Row>, network: seq<Network>)
    returns (outcomes: seq<Eval<Row>>)
    requires forall i :: 0 <= i < |rows| ==> HasId(rows[i])
    requires |network| == |rows|
    ensures |outcomes| == |rows|
    ensures forall i {:trigger Process(cfg, rows[i], network[i])} :: 0 <= i < |rows| ==>
              outcomes[i] == Process(cfg, rows[i], network[i])
  {
    outcomes := seq(|rows|, i requires 0 <= i < |rows| => Process(cfg, rows[i], network[i]));
  }

  /** The collection loop. `network[i]` is the final outcome of the request
      for row i and `order` the order in which the fetches complete. The run
      finishes exactly when no row's fetch raises, whatever the order; it
      then holds one merged record per row, in completion order. Otherwise
      it stops at the first raising fetch to complete. */
  method RunBatch(cfg: Config, rows: seq<Row>, network: seq<Network>, order: seq<nat>)
    returns (batch: BatchResult)
    requires forall i :: 0 <= i < |rows| ==> HasId(rows[i])
    requires |network| == |rows|
    requires IsCompletionOrder(order, |rows|)
    ensures batch.Finished? <==> forall i :: 0 <= i < |rows| ==> Process(cfg, rows[i], network[i]).Value?
    ensures batch.Finished? ==>
              && |batch.records| == |rows|
              && (forall k :: 0 <= k < |order| ==> order[k] < |rows|)
              && batch.records == Permute(InputOrderRecords(cfg, rows, network), order)
              && multiset(batch.records) == multiset(InputOrderRecords(cfg, rows, network))
    ensures batch.Aborted? ==>
              && batch.completed < |order| == |rows|
              && order[batch.completed] < |rows|
              && Process(cfg, rows[order[batch.completed]], network[order[batch.completed]])
                 == Raised(batch.error)
              && (forall k :: 0 <= k < batch.completed ==>
                    order[k] < |rows| && Process(cfg, rows[order[k]], network[order[k]]).Value?)
  {
    CompletionOrderInRange(order, |rows|);
    ghost var outcomes := RowOutcomes(cfg, rows, network);
    var results: seq<Row> := [];
    var completed: nat := 0;
    while completed < |order|
      invariant completed <= |order| == |rows|
      invariant |results| == completed
      invariant forall k :: 0 <= k < completed ==> outcomes[order[k]] == Value(results[k])
    {
      var i := order[completed];
      var data := FetchData(cfg, RowId(rows[i]), network[i]);
      ProcessStep(cfg, rows[i], network[i]);
      if data.Raised? {
        return Aborted(data.error, completed);
      }
      var combined := Merge(rows[i], AsDict(data.value));
      results := results + [combined];
      completed := completed + 1;
    }
    CollectedRecords(cfg, rows, network, order, results);
    return Finished(results);
  }
}
