/**
 * `obtener_pools`: the parameters it forces, the loop that keeps the two
 * accepted entry shapes, and the descending sort of the resulting table.
 */
module Pools {
  import opened Wrappers
  import opened JsonValues
  import opened Dicts
  import opened Requests

  const PoolsEndpoint: string := "pools"
  const PoolsDefaultTimespan: string := "4days"

  /**
   * The caller's parameters after the two assignments: "timespan" set to
   * "4days" only when absent, "cors" always set to "true", nothing else
   * touched.
   */
  function PoolParams(params: Dict<string>): (p: Dict<string>)
    ensures Get(p, "timespan")
         == if HasKey(params, "timespan") then Get(params, "timespan") else Some(PoolsDefaultTimespan)
    ensures Get(p, "cors") == Some("true")
    ensures forall k :: k != "timespan" && k != "cors" ==> Get(p, k) == Get(params, k)
    ensures DistinctKeys(params) ==> DistinctKeys(p)
  {
    var p := if HasKey(params, "timespan") then params else Put(params, "timespan", PoolsDefaultTimespan);
    Put(p, "cors", "true")
  }

  // ---------------------------------------------------------------------
  // The loop over the payload's entries

  /** An entry the loop keeps: an object holding "relativeSize", or a bare int or float. */
  predicate Accepted(info: Value) {
    (info.JObj? && HasKey(info.members, "relativeSize")) || IsIntOrFloat(info)
  }

  /** The cell stored for an accepted entry. */
  function SizeCell(info: Value): Value
    requires Accepted(info)
  {
    if info.JObj? && HasKey(info.members, "relativeSize") then
      Get(info.members, "relativeSize").value
    else info
  }

  /**
   * The table after the loop has seen `entries`: `df.at[pool, 'relativeSize'] = cell`
   * for each accepted one. Each pool is in it once, so it has no more rows
   * than there were entries.
   */
  function Collected(entries: Dict<Value>): (rows: Dict<Value>)
    ensures DistinctKeys(rows) && |rows| <= |entries|
    decreases |entries|
  {
    if entries == [] then []
    else
      var prev := Collected(entries[..|entries| - 1]);
      var last := entries[|entries| - 1];
      if Accepted(last.1) then Put(prev, last.0, SizeCell(last.1)) else prev
  }

  method CollectPools(entries: Dict<Value>) returns (rows: Dict<Value>)
    ensures rows == Collected(entries)
  {
    rows := [];
    for i := 0 to |entries|
      invariant rows == Collected(entries[..i])
    {
      var (pool, info) := entries[i];
      assert entries[..i + 1][..i] == entries[..i];
      if info.JObj? && HasKey(info.members, "relativeSize") {
        rows := Put(rows, pool, Get(info.members, "relativeSize").value);
      } else if IsIntOrFloat(info) {
        rows := Put(rows, pool, info);
      }
    }
    assert entries[..|entries|] == entries;
  }

  /** Some entry for pool `k` has an accepted shape. */
  predicate HasAcceptedEntry(entries: Dict<Value>, k: string) {
    exists i :: 0 <= i < |entries| && entries[i].0 == k && Accepted(entries[i].1)
  }

  /** A pool is in the table exactly when one of its entries has an accepted shape. */
  lemma {:induction false} CollectedKeys(entries: Dict<Value>, k: string)
    ensures HasKey(Collected(entries), k) <==> HasAcceptedEntry(entries, k)
    decreases |entries|
  {
    if entries != [] {
      CollectedKeys(entries[..|entries| - 1], k);
      CollectedLast(entries, k);
      AcceptedEntryLast(entries, k);
    }
  }

  lemma AcceptedEntryLast(entries: Dict<Value>, k: string)
    requires entries != []
    ensures var last := entries[|entries| - 1];
      HasAcceptedEntry(entries, k)
        == (HasAcceptedEntry(entries[..|entries| - 1], k) || (last.0 == k && Accepted(last.1)))
  {
    var n := |entries| - 1;
    var init := entries[..n];
    if HasAcceptedEntry(init, k) {
      var i :| 0 <= i < |init| && init[i].0 == k && Accepted(init[i].1);
      assert entries[i] == init[i];
    }
    if i :| 0 <= i < n && entries[i].0 == k && Accepted(entries[i].1) {
      assert init[i] == entries[i];
    }
  }

  /** One more entry adds its pool exactly when its shape is accepted. */
  lemma CollectedLast(entries: Dict<Value>, k: string)
    requires entries != []
    ensures var last := entries[|entries| - 1];
      HasKey(Collected(entries), k)
        == (HasKey(Collected(entries[..|entries| - 1]), k) || (last.0 == k && Accepted(last.1)))
  {
    var prev := Collected(entries[..|entries| - 1]);
    var last := entries[|entries| - 1];
    if Accepted(last.1) {
      assert Collected(entries) == Put(prev, last.0, SizeCell(last.1));
      assert Keys(Collected(entries)) == if HasKey(prev, last.0) then Keys(prev) else Keys(prev) + [last.0];
    } else {
      assert Collected(entries) == prev;
    }
  }

  /** With distinct pool names, each accepted pool's cell is the value its entry carries. */
  lemma {:induction false} CollectedValue(entries: Dict<Value>, i: nat)
    requires DistinctKeys(entries) && i < |entries| && Accepted(entries[i].1)
    ensures Get(Collected(entries), entries[i].0) == Some(SizeCell(entries[i].1))
    decreases |entries|
  {
    var n := |entries| - 1;
    var init := entries[..n];
    if i < n {
      assert Keys(init) == Keys(entries)[..n];
      assert init[i] == entries[i];
      assert Keys(entries)[i] != Keys(entries)[n];
      CollectedValue(init, i);
    }
  }

  // ---------------------------------------------------------------------
  // sort_values('relativeSize', ascending=False)

  /** Rows of the pool table: pool name and relative size. */
  type PoolTable = seq<(string, real)>

  /**
   * The size column converted row by row, or None when some cell is not a
   * number and the sort would raise. It succeeds exactly when every cell
   * is an int or float, and then keeps the pool names in row order, each
   * with the numeric value of its cell.
   */
  function Sizes(rows: Dict<Value>): (t: Option<PoolTable>)
    ensures t.Some? <==> forall i :: 0 <= i < |rows| ==> IsIntOrFloat(rows[i].1)
    ensures t.Some? ==> |t.value| == |rows|
    ensures t.Some? ==> forall i :: 0 <= i < |rows| ==> t.value[i] == (rows[i].0, NumericValue(rows[i].1))
  {
    if rows == [] then Some([])
    else if !IsIntOrFloat(rows[0].1) then None
    else
      match Sizes(rows[1..])
      case None =>
        assert exists i :: 0 < i < |rows| && !IsIntOrFloat(rows[i].1) by {
          var i :| 0 <= i < |rows| - 1 && !IsIntOrFloat(rows[1..][i].1);
          assert rows[1..][i] == rows[i + 1];
        }
        None
      case Some(rest) => Some([(rows[0].0, NumericValue(rows[0].1))] + rest)
  }

  predicate SortedDesc(t: PoolTable) {
    forall i, j :: 0 <= i < j < |t| ==> t[i].1 >= t[j].1
  }

  function InsertDesc(row: (string, real), t: PoolTable): (r: PoolTable)
    requires SortedDesc(t)
    ensures SortedDesc(r)
    ensures multiset(r) == multiset(t) + multiset{row}
  {
    if t == [] || row.1 >= t[0].1 then
      SortedCons(row, t);
      [row] + t
    else
      var rest := InsertDesc(row, t[1..]);
      InsertBound(row, t, rest);
      SortedCons(t[0], rest);
      assert t == [t[0]] + t[1..];
      [t[0]] + rest
  }

  /** A row at least as large as every row of a descending table can go in front of it. */
  lemma SortedCons(x: (string, real), s: PoolTable)
    requires SortedDesc(s)
    requires forall y :: y in s ==> y.1 <= x.1
    ensures SortedDesc([x] + s)
  {
    forall i, j | 0 <= i < j < |s| + 1 ensures ([x] + s)[i].1 >= ([x] + s)[j].1 {
      if i == 0 {
        assert ([x] + s)[j] == s[j - 1] && s[j - 1] in s;
      } else {
        assert ([x] + s)[i] == s[i - 1] && ([x] + s)[j] == s[j - 1];
      }
    }
  }

  /** Rows of the tail and a smaller inserted row are all bounded by the head. */
  lemma InsertBound(row: (string, real), t: PoolTable, rest: PoolTable)
    requires SortedDesc(t) && t != [] && row.1 < t[0].1
    requires multiset(rest) == multiset(t[1..]) + multiset{row}
    ensures forall x :: x in rest ==> x.1 <= t[0].1
  {
    forall x | x in rest ensures x.1 <= t[0].1 {
      assert x in multiset(rest);
      if x != row {
        assert x in multiset(t[1..]);
        var k :| 0 <= k < |t[1..]| && t[1..][k] == x;
        assert t[k + 1] == x;
      }
    }
  }

  /** The rows ordered by non-increasing size: a permutation of its input. */
  function SortDesc(t: PoolTable): (r: PoolTable)
    ensures SortedDesc(r)
    ensures multiset(r) == multiset(t)
  {
    if t == [] then []
    else
      assert t == [t[0]] + t[1..];
      InsertDesc(t[0], SortDesc(t[1..]))
  }

  // ---------------------------------------------------------------------
  // The whole operation on a payload

  /**
   * What `obtener_pools` returns for a payload: the empty table unless
   * the payload is an object, and the sorted table of accepted entries
   * when there are any (empty if a cell would make the sort raise). It is
   * always sorted largest first and never longer than the payload.
   */
  function PoolTableOf(payload: Value): (t: PoolTable)
    ensures SortedDesc(t)
    ensures !payload.JObj? ==> t == []
    ensures payload.JObj? ==> |t| <= |payload.members|
  {
    if !payload.JObj? then []
    else
      var rows := Collected(payload.members);
      if rows == [] then []
      else
        match Sizes(rows)
        case Some(t) =>
          var r := SortDesc(t);
          assert |r| == |multiset(r)| == |multiset(t)| == |t|;
          r
        case None => []
  }

  /** `obtener_pools`'s result for the outcome of its request: an error gives the empty table. */
  function PoolResult(reply: Reply): (t: PoolTable)
    ensures SortedDesc(t)
    ensures reply.Err? ==> t == []
  {
    match reply
    case Ok(payload) => PoolTableOf(payload)
    case Err(_) => []
  }

  /**
   * The table is sorted by non-increasing size, and each row is a pool
   * of the payload whose entry has an accepted shape and whose size is
   * the value that entry carries.
   */
  lemma PoolTableSound(payload: Value, name: string, size: real)
    requires payload.JObj? && DistinctKeys(payload.members)
    requires (name, size) in PoolTableOf(payload)
    ensures SortedDesc(PoolTableOf(payload))
    ensures exists i :: (0 <= i < |payload.members| && payload.members[i].0 == name
                         && Accepted(payload.members[i].1)
                         && IsIntOrFloat(SizeCell(payload.members[i].1))
                         && NumericValue(SizeCell(payload.members[i].1)) == size)
  {
    var entries := payload.members;
    var rows := Collected(entries);
    var t := Sizes(rows).value;
    assert (name, size) in multiset(SortDesc(t));
    assert (name, size) in t;
    var a :| 0 <= a < |t| && t[a] == (name, size);
    assert rows[a].0 == name;
    assert HasKey(rows, name) by { assert Keys(rows)[a] == name; }
    CollectedKeys(entries, name);
    var i :| 0 <= i < |entries| && entries[i].0 == name && Accepted(entries[i].1);
    CollectedValue(entries, i);
    CollectedKeys(entries, "");
    GetAt(rows, a);
  }

  /**
   * When every accepted entry carries a number, every such pool is in the
   * table with the value its entry carries, and the table has exactly one
   * row per such pool.
   */
  lemma PoolTableComplete(payload: Value, i: nat)
    requires payload.JObj? && DistinctKeys(payload.members)
    requires forall j :: 0 <= j < |payload.members| && Accepted(payload.members[j].1) ==>
               IsIntOrFloat(SizeCell(payload.members[j].1))
    requires i < |payload.members| && Accepted(payload.members[i].1)
    ensures (payload.members[i].0, NumericValue(SizeCell(payload.members[i].1))) in PoolTableOf(payload)
    ensures |PoolTableOf(payload)| == |Collected(payload.members)|
  {
    var entries := payload.members;
    var rows := Collected(entries);
    CollectedKeys(entries, "");
    forall a | 0 <= a < |rows| ensures IsIntOrFloat(rows[a].1) {
      assert Keys(rows)[a] == rows[a].0;
      CollectedKeys(entries, rows[a].0);
      var j :| 0 <= j < |entries| && entries[j].0 == rows[a].0 && Accepted(entries[j].1);
      CollectedValue(entries, j);
      GetAt(rows, a);
    }
    var t := Sizes(rows).value;
    CollectedValue(entries, i);
    var a := IndexOf(Keys(rows), entries[i].0);
    assert rows[a] == (entries[i].0, SizeCell(entries[i].1));
    assert t[a] in multiset(t);
    assert |multiset(SortDesc(t))| == |multiset(t)|;
  }

  /** The example of a nested and a bare entry: both kept, largest first. */
  lemma TwoShapesExample()
    ensures PoolTableOf(JObj([("PoolA", JObj([("relativeSize", JNum(12.5))])), ("PoolB", JNum(7.5))]))
         == [("PoolA", 12.5), ("PoolB", 7.5)]
  {
    var entries := [("PoolA", JObj([("relativeSize", JNum(12.5))])), ("PoolB", JNum(7.5))];
    var rows := [("PoolA", JNum(12.5)), ("PoolB", JNum(7.5))];
    var t := [("PoolA", 12.5), ("PoolB", 7.5)];
    ExampleCollected(entries);
    ExampleSizes(rows, t);
    assert SortDesc([("PoolB", 7.5)]) == [("PoolB", 7.5)];
    assert t[1..] == [("PoolB", 7.5)];
    assert SortDesc(t) == t;
  }

  lemma ExampleCollected(entries: Dict<Value>)
    requires entries == [("PoolA", JObj([("relativeSize", JNum(12.5))])), ("PoolB", JNum(7.5))]
    ensures Collected(entries) == [("PoolA", JNum(12.5)), ("PoolB", JNum(7.5))]
  {
    var inner := [("relativeSize", JNum(12.5))];
    assert HasKey(inner, "relativeSize") by { assert Keys(inner)[0] == "relativeSize"; }
    assert Get(inner, "relativeSize") == Some(JNum(12.5)) by { GetAt(inner, 0); }
    assert entries[..1] == [entries[0]];
    assert entries[..1][..0] == [];
    assert Collected(entries[..1]) == [("PoolA", JNum(12.5))];
    assert !HasKey([("PoolA", JNum(12.5))], "PoolB");
  }

  lemma ExampleSizes(rows: Dict<Value>, t: PoolTable)
    requires rows == [("PoolA", JNum(12.5)), ("PoolB", JNum(7.5))]
    requires t == [("PoolA", 12.5), ("PoolB", 7.5)]
    ensures Sizes(rows) == Some(t)
  {
    assert IsIntOrFloat(rows[0].1) && IsIntOrFloat(rows[1].1);
    var s := Sizes(rows).value;
    assert |s| == 2 && s[0] == t[0] && s[1] == t[1];
    assert s == t;
  }
}
