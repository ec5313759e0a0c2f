/**
 * The ordering engine: positions are integers chosen by the client and stored
 * verbatim; a reorder batch rewrites the positions (and, for tasks, the
 * column) of the rows it names, one row at a time, so when a batch names a row
 * twice its last entry wins. Reads list siblings by ascending position.
 */
module Ordering {
  import opened Wrappers
  import opened Schema

  /** The position the batch finally gives to `id`, or None when it does not name `id`. */
  function LastPosition(items: seq<Item>, id: string): (r: Option<int>)
    ensures r.None? <==> forall k :: 0 <= k < |items| ==> items[k].id != id
    decreases |items|
  {
    if items == [] then None
    else if items[|items| - 1].id == id then Some(items[|items| - 1].position)
    else LastPosition(items[..|items| - 1], id)
  }

  /** Entry `k` of the batch names `id`, and no later entry does. */
  predicate LastEntry(items: seq<Item>, id: string, k: int)
  {
    0 <= k < |items| && items[k].id == id && forall j :: k < j < |items| ==> items[j].id != id
  }

  /** When the batch gives `id` a position, it is that of the last entry naming `id`. */
  lemma {:induction false} LastPositionIsLastEntry(items: seq<Item>, id: string)
    ensures LastPosition(items, id).Some? ==>
      exists k :: LastEntry(items, id, k) && LastPosition(items, id).value == items[k].position
    decreases |items|
  {
    if items != [] {
      var n := |items| - 1;
      if items[n].id == id {
        assert LastEntry(items, id, n);
      } else {
        var init := items[..n];
        LastPositionIsLastEntry(init, id);
        if LastPosition(init, id).Some? {
          var k :| LastEntry(init, id, k) && LastPosition(init, id).value == init[k].position;
          assert LastEntry(items, id, k);
        }
      }
    }
  }

  /** The entries of the batch name pairwise different rows. */
  predicate DistinctIds(items: seq<Item>)
  {
    forall j, k :: 0 <= j < k < |items| ==> items[j].id != items[k].id
  }

  /** In a batch that names every row once, each row gets the position its entry gives. */
  lemma {:induction false} LastPositionOfDistinct(items: seq<Item>, k: nat)
    requires DistinctIds(items) && k < |items|
    ensures LastPosition(items, items[k].id) == Some(items[k].position)
    decreases |items|
  {
    if k < |items| - 1 {
      var init := items[..|items| - 1];
      assert init[k] == items[k];
      LastPositionOfDistinct(init, k);
    }
  }

  /** True when every entry of the batch names an existing row. */
  predicate AllKnown<V>(rows: map<string, V>, items: seq<Item>)
  {
    forall k :: 0 <= k < |items| ==> items[k].id in rows
  }

  /**
   * The column table after `prisma.column.update({position})` has run for
   * every entry of the batch, in order; an entry naming no column changes nothing.
   */
  function Reposition(cols: map<ColumnId, Column>, items: seq<Item>): map<ColumnId, Column>
    decreases |items|
  {
    if items == [] then cols
    else
      var last := items[|items| - 1];
      var prev := Reposition(cols, items[..|items| - 1]);
      if last.id in prev then prev[last.id := prev[last.id].(position := last.position)] else prev
  }

  /** Each column the batch names takes the position of its last entry; nothing else changes. */
  lemma {:induction false} RepositionSpec(cols: map<ColumnId, Column>, items: seq<Item>)
    ensures Reposition(cols, items).Keys == cols.Keys
    ensures forall c :: c in cols ==>
      Reposition(cols, items)[c] == (match LastPosition(items, c)
                                     case None => cols[c]
                                     case Some(p) => cols[c].(position := p))
    decreases |items|
  {
    if items != [] {
      RepositionSpec(cols, items[..|items| - 1]);
    }
  }

  /**
   * The task table after `prisma.task.update({columnId, position})` has run
   * for every entry of the batch, in order: each named task moves to
   * `target` with the entry's position.
   */
  function MoveTasks(ts: map<TaskId, Task>, target: ColumnId, items: seq<Item>): map<TaskId, Task>
    decreases |items|
  {
    if items == [] then ts
    else
      var last := items[|items| - 1];
      var prev := MoveTasks(ts, target, items[..|items| - 1]);
      if last.id in prev then prev[last.id := prev[last.id].(columnId := target, position := last.position)] else prev
  }

  /** Each task the batch names ends in `target` at the position of its last entry; nothing else changes. */
  lemma {:induction false} MoveTasksSpec(ts: map<TaskId, Task>, target: ColumnId, items: seq<Item>)
    ensures MoveTasks(ts, target, items).Keys == ts.Keys
    ensures forall t :: t in ts ==>
      MoveTasks(ts, target, items)[t] == (match LastPosition(items, t)
                                          case None => ts[t]
                                          case Some(p) => ts[t].(columnId := target, position := p))
    decreases |items|
  {
    if items != [] {
      MoveTasksSpec(ts, target, items[..|items| - 1]);
    }
  }

  /**
   * For a batch of distinct columns, every listed column takes its entry's
   * position and every other column is as it was.
   */
  lemma RepositionDistinct(cols: map<ColumnId, Column>, items: seq<Item>)
    requires DistinctIds(items) && AllKnown(cols, items)
    ensures forall k :: 0 <= k < |items| ==>
      && items[k].id in Reposition(cols, items)
      && Reposition(cols, items)[items[k].id] == cols[items[k].id].(position := items[k].position)
    ensures forall c :: c in cols && (forall k :: 0 <= k < |items| ==> items[k].id != c) ==>
      c in Reposition(cols, items) && Reposition(cols, items)[c] == cols[c]
  {
    RepositionSpec(cols, items);
    forall k | 0 <= k < |items|
      ensures Reposition(cols, items)[items[k].id] == cols[items[k].id].(position := items[k].position)
    {
      LastPositionOfDistinct(items, k);
    }
  }

  /**
   * For a batch of distinct tasks, every listed task ends in `target` with
   * its own position and every other task is as it was.
   */
  lemma MoveTasksDistinct(ts: map<TaskId, Task>, target: ColumnId, items: seq<Item>)
    requires DistinctIds(items) && AllKnown(ts, items)
    ensures forall k :: 0 <= k < |items| ==>
      && items[k].id in MoveTasks(ts, target, items)
      && MoveTasks(ts, target, items)[items[k].id] == ts[items[k].id].(columnId := target, position := items[k].position)
    ensures forall t :: t in ts && (forall k :: 0 <= k < |items| ==> items[k].id != t) ==>
      t in MoveTasks(ts, target, items) && MoveTasks(ts, target, items)[t] == ts[t]
  {
    MoveTasksSpec(ts, target, items);
    forall k | 0 <= k < |items|
      ensures MoveTasks(ts, target, items)[items[k].id] == ts[items[k].id].(columnId := target, position := items[k].position)
    {
      LastPositionOfDistinct(items, k);
    }
  }

  /** `r` runs by ascending position. */
  ghost predicate SortedBy<K>(r: seq<K>, pos: map<K, int>)
  {
    forall i, j :: 0 <= i < j < |r| ==> r[i] in pos && r[j] in pos && pos[r[i]] <= pos[r[j]]
  }

  /** `r` lists exactly the keys of `pos`, each once, by ascending position. */
  ghost predicate IsOrderedListing<K(!new)>(r: seq<K>, pos: map<K, int>)
  {
    && NoRepeats(r)
    && (forall k :: k in pos <==> k in r)
    && SortedBy(r, pos)
  }

  /** Every entry of `r` has a position. */
  ghost predicate AllPlaced<K>(r: seq<K>, pos: map<K, int>)
  {
    forall i :: 0 <= i < |r| ==> r[i] in pos
  }

  ghost predicate NoRepeats<K>(r: seq<K>)
  {
    forall i, j :: 0 <= i < j < |r| ==> r[i] != r[j]
  }

  /**
   * Putting a new row `k` between the rows not after it and the rows after it
   * keeps the listing ordered and free of repeats.
   */
  lemma InsertKeepsListing<K>(r: seq<K>, j: nat, k: K, pos: map<K, int>)
    requires AllPlaced(r, pos) && SortedBy(r, pos) && NoRepeats(r) && k in pos && k !in r && j <= |r|
    requires forall i :: 0 <= i < j ==> pos[r[i]] <= pos[k]
    requires forall i :: j <= i < |r| ==> pos[k] <= pos[r[i]]
    ensures var s := r[..j] + [k] + r[j..];
      AllPlaced(s, pos) && SortedBy(s, pos) && NoRepeats(s) && (forall x :: x in s <==> x in r || x == k)
  {
    var s := r[..j] + [k] + r[j..];
    assert forall a :: 0 <= a < |s| ==> s[a] == if a < j then r[a] else if a == j then k else r[a - 1];
    forall a, b | 0 <= a < b < |s| ensures pos[s[a]] <= pos[s[b]] && s[a] != s[b] {
      if b < j {
      } else if b == j {
      } else if a < j {
        assert pos[r[a]] <= pos[k] <= pos[r[b - 1]];
      } else if a == j {
      } else {
      }
    }
    forall x ensures x in s <==> x in r || x == k {
      if x in r {
        var i :| 0 <= i < |r| && r[i] == x;
        assert s[if i < j then i else i + 1] == x;
      }
      assert s[j] == k;
    }
  }

  /** Where `k` goes: after every row not after it, before every row after it. */
  method InsertionPoint<K>(r: seq<K>, k: K, pos: map<K, int>) returns (j: nat)
    requires AllPlaced(r, pos) && SortedBy(r, pos) && k in pos
    ensures j <= |r|
    ensures forall i :: 0 <= i < j ==> pos[r[i]] <= pos[k]
    ensures forall i :: j <= i < |r| ==> pos[k] < pos[r[i]]
  {
    j := 0;
    while j < |r| && pos[r[j]] <= pos[k]
      invariant 0 <= j <= |r|
      invariant forall i :: 0 <= i < j ==> pos[r[i]] <= pos[k]
    {
      j := j + 1;
    }
    forall i | j <= i < |r| ensures pos[k] < pos[r[i]] {
      assert pos[k] < pos[r[j]];
      assert i == j || pos[r[j]] <= pos[r[i]];
    }
  }

  /**
   * `orderBy: { position: "asc" }`: lists the rows whose positions `pos`
   * holds. Rows that share a position come in an unspecified order.
   */
  method OrderByPosition<K(!new)>(pos: map<K, int>) returns (r: seq<K>)
    ensures IsOrderedListing(r, pos)
  {
    r := [];
    var rest := pos.Keys;
    while rest != {}
      invariant rest <= pos.Keys
      invariant forall k :: k in pos ==> (k in r <==> k !in rest)
      invariant AllPlaced(r, pos) && NoRepeats(r) && SortedBy(r, pos)
      decreases rest
    {
      var k :| k in rest;
      var j := InsertionPoint(r, k, pos);
      InsertKeepsListing(r, j, k, pos);
      r := r[..j] + [k] + r[j..];
      rest := rest - {k};
    }
  }
}
