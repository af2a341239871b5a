/**
 * The slice of pandas that `_procesar_datos_grafico` relies on: building
 * a table from a list of JSON objects, moving column "x" into the index,
 * and renaming the first numeric column to "y".
 */
module Frames {
  import opened Wrappers
  import opened JsonValues
  import opened Dicts

  datatype Column = Column(name: string, cells: seq<Value>)

  /** A default 0..n-1 index, or the labels taken from a column. */
  datatype Index = Positional(size: nat) | Labelled(labels: seq<Value>)

  datatype Frame = Frame(index: Index, columns: seq<Column>)

  function Height(index: Index): nat {
    match index
    case Positional(n) => n
    case Labelled(labels) => |labels|
  }

  function Names(cols: seq<Column>): seq<string> {
    seq(|cols|, i requires 0 <= i < |cols| => cols[i].name)
  }

  /** Distinct column names, and every column as long as the index. */
  predicate WellShaped(f: Frame) {
    && NoDup(Names(f.columns))
    && forall c :: c in f.columns ==> |c.cells| == Height(f.index)
  }

  /** `pd.DataFrame()`: no rows and no columns. */
  const EmptyFrame: Frame := Frame(Positional(0), [])

  // ---------------------------------------------------------------------
  // pd.DataFrame(records)

  /** The keys of `records` in order of first appearance, after those in `seen`. */
  function NamesFrom(seen: seq<string>, records: seq<Dict<Value>>): seq<string>
    decreases |records|
  {
    if records == [] then seen
    else NamesFrom(seen + NewKeys(seen, Keys(records[0])), records[1..])
  }

  predicate InSomeRecord(records: seq<Dict<Value>>, k: string) {
    exists i :: 0 <= i < |records| && HasKey(records[i], k)
  }

  /** The column labels pandas gives a list of dicts: every key once, in order of first appearance. */
  function ColumnNames(records: seq<Dict<Value>>): (names: seq<string>)
    ensures NoDup(names)
    ensures forall k :: k in names <==> InSomeRecord(records, k)
  {
    NamesFromMembers([], records);
    NamesFrom([], records)
  }

  lemma {:induction false} NamesFromMembers(seen: seq<string>, records: seq<Dict<Value>>)
    requires NoDup(seen)
    ensures NoDup(NamesFrom(seen, records))
    ensures forall k :: k in NamesFrom(seen, records) <==> k in seen || InSomeRecord(records, k)
    decreases |records|
  {
    if records != [] {
      var added := NewKeys(seen, Keys(records[0]));
      NewKeysMembers(seen, Keys(records[0]));
      NoDupAppend(seen, added);
      NamesFromMembers(seen + added, records[1..]);
      forall k ensures InSomeRecord(records, k) <==> HasKey(records[0], k) || InSomeRecord(records[1..], k) {
        if InSomeRecord(records, k) && !HasKey(records[0], k) {
          var i :| 0 <= i < |records| && HasKey(records[i], k);
          assert HasKey(records[1..][i - 1], k);
        }
        if InSomeRecord(records[1..], k) {
          var i :| 0 <= i < |records| - 1 && HasKey(records[1..][i], k);
          assert HasKey(records[i + 1], k);
        }
      }
    }
  }

  /** Every key of every record, record after record, each record's keys in its own order. */
  function AllKeys(records: seq<Dict<Value>>): seq<string> {
    if records == [] then [] else Keys(records[0]) + AllKeys(records[1..])
  }

  /**
   * pandas' column order: the columns are exactly the keys met reading the
   * records one after the other, and a column comes before another exactly
   * when its name occurs first earlier in that reading.
   */
  lemma ColumnNamesOrder(records: seq<Dict<Value>>)
    ensures forall k :: k in ColumnNames(records) <==> k in AllKeys(records)
    ensures var names := ColumnNames(records);
      forall i, j :: 0 <= i < |names| && 0 <= j < |names| ==>
        (i < j <==> IndexOf(AllKeys(records), names[i]) < IndexOf(AllKeys(records), names[j]))
  {
    var names := NamesFrom([], records);
    assert ColumnNames(records) == names;
    NamesFromOrder([], records);
    assert names[0..] == names;
    OrderIff(names, AllKeys(records));
  }

  lemma {:induction false} NamesFromOrder(seen: seq<string>, records: seq<Dict<Value>>)
    ensures var out := NamesFrom(seen, records);
      && |seen| <= |out| && out[..|seen|] == seen
      && InFirstOccurrenceOrder(out[|seen|..], AllKeys(records))
      && (forall k :: k in out[|seen|..] ==> k !in seen)
      && (forall k :: k in AllKeys(records) ==> k in out)
    decreases |records|
  {
    var out := NamesFrom(seen, records);
    if records == [] {
      assert out == seen;
    } else {
      var k0 := Keys(records[0]);
      var added := NewKeys(seen, k0);
      var seen' := seen + added;
      NamesFromOrder(seen', records[1..]);
      NewKeysMembers(seen, k0);
      NewKeysOrder(seen, k0);
      var tail := out[|seen'|..];
      assert out[..|seen'|] == seen';
      assert out[|seen|..] == added + tail;
      forall k | k in tail ensures k !in k0 {
        assert k !in seen';
      }
      OrderAppend(added, tail, k0, AllKeys(records[1..]));
      assert AllKeys(records) == k0 + AllKeys(records[1..]);
      forall k | k in out[|seen|..] ensures k !in seen {
        assert k in added || k in tail;
      }
      forall k | k in AllKeys(records) ensures k in out {
        if k in k0 {
          assert k in seen' && out[..|seen'|] == seen';
        }
      }
    }
  }

  /** The cell of a record under a column: the record's value, or missing (null) when it lacks the key. */
  function Cell(record: Dict<Value>, name: string): Value {
    Get(record, name).GetOr(JNull)
  }

  function ColumnOf(records: seq<Dict<Value>>, name: string): (c: Column)
    ensures c.name == name && |c.cells| == |records|
    ensures forall i :: 0 <= i < |records| ==> c.cells[i] == Cell(records[i], name)
  {
    Column(name, seq(|records|, i requires 0 <= i < |records| => Cell(records[i], name)))
  }

  /**
   * `pd.DataFrame(records)`: one row per record, one column per key that
   * some record has, each cell the record's value under that key.
   */
  function FromRecords(records: seq<Dict<Value>>): (f: Frame)
    ensures WellShaped(f) && f.index == Positional(|records|)
    ensures Names(f.columns) == ColumnNames(records)
    ensures forall c :: c in f.columns ==> c == ColumnOf(records, c.name)
  {
    var names := ColumnNames(records);
    var f := Frame(Positional(|records|),
                   seq(|names|, j requires 0 <= j < |names| => ColumnOf(records, names[j])));
    assert Names(f.columns) == names;
    f
  }

  // ---------------------------------------------------------------------
  // df.set_index('x')

  /**
   * With a column "x", its cells become the index and it leaves the
   * columns, the others keeping their order; without one nothing changes.
   */
  function SetIndexX(f: Frame): (g: Frame)
    requires WellShaped(f)
    ensures WellShaped(g) && Height(g.index) == Height(f.index)
    ensures "x" !in Names(g.columns)
    ensures forall k :: k in Names(g.columns) <==> k in Names(f.columns) && k != "x"
    ensures "x" !in Names(f.columns) ==> g == f
    ensures "x" in Names(f.columns) ==>
      var j := IndexOf(Names(f.columns), "x");
      g.index == Labelled(f.columns[j].cells) && g.columns == f.columns[..j] + f.columns[j + 1..]
  {
    var names := Names(f.columns);
    if "x" in names then
      var j := IndexOf(names, "x");
      var rest := f.columns[..j] + f.columns[j + 1..];
      assert f.columns[j] in f.columns;
      RemovedNames(f.columns, j);
      Frame(Labelled(f.columns[j].cells), rest)
    else
      f
  }

  lemma RemovedNames(cols: seq<Column>, j: nat)
    requires j < |cols| && NoDup(Names(cols))
    ensures Names(cols[..j] + cols[j + 1..]) == Names(cols)[..j] + Names(cols)[j + 1..]
    ensures NoDup(Names(cols[..j] + cols[j + 1..]))
    ensures cols[j].name !in Names(cols[..j] + cols[j + 1..])
    ensures forall k :: k in Names(cols[..j] + cols[j + 1..]) <==> k in Names(cols) && k != cols[j].name
  {
    var rest := cols[..j] + cols[j + 1..];
    var names := Names(cols);
    assert Names(rest) == names[..j] + names[j + 1..];
    forall a, b | 0 <= a < b < |rest| ensures Names(rest)[a] != Names(rest)[b] {
      var a' := if a < j then a else a + 1;
      var b' := if b < j then b else b + 1;
      assert Names(rest)[a] == names[a'] && Names(rest)[b] == names[b'];
    }
    forall a | 0 <= a < |rest| ensures Names(rest)[a] != cols[j].name {
      var a' := if a < j then a else a + 1;
      assert Names(rest)[a] == names[a'] && names[j] == cols[j].name;
    }
    forall k | k in names && k != cols[j].name ensures k in Names(rest) {
      var a :| 0 <= a < |names| && names[a] == k;
      assert a != j;
      var a' := if a < j then a else a - 1;
      assert Names(rest)[a'] == k;
    }
  }

  // ---------------------------------------------------------------------
  // df.rename(columns={numeric_cols[0]: 'y'})

  /**
   * A column `select_dtypes(include=['number'])` keeps: only numbers or
   * missing values, and at least one number (a column of booleans, of
   * strings, of mixed kinds or of nulls only is not numeric).
   */
  predicate IsNumericColumn(c: Column) {
    && (forall v :: v in c.cells ==> v.JNum? || v.JNull?)
    && (exists v :: v in c.cells && v.JNum?)
  }

  /** Columns `select_dtypes` leaves out: any holding a bool or a string, and any of nulls only. */
  lemma NonNumericColumns(c: Column)
    ensures (exists v :: v in c.cells && (v.JBool? || v.JStr?)) ==> !IsNumericColumn(c)
    ensures (forall v :: v in c.cells ==> v.JNull?) ==> !IsNumericColumn(c)
  {
  }

  predicate FirstNumericAt(cols: seq<Column>, j: nat) {
    && j < |cols|
    && IsNumericColumn(cols[j])
    && forall i :: 0 <= i < j ==> !IsNumericColumn(cols[i])
  }

  /**
   * Renames exactly the first numeric column to "y"; every other column,
   * and every column's cells, stay as they were; without a numeric column
   * nothing changes.
   */
  function RenameFirstNumeric(cols: seq<Column>): (r: seq<Column>)
    ensures |r| == |cols|
    ensures forall i :: 0 <= i < |cols| ==> r[i].cells == cols[i].cells
    ensures (forall i :: 0 <= i < |cols| ==> !IsNumericColumn(cols[i])) ==> r == cols
    ensures forall j: nat :: FirstNumericAt(cols, j) ==>
      r[j].name == "y" && forall i :: 0 <= i < |cols| && i != j ==> r[i] == cols[i]
  {
    if cols == [] then []
    else if IsNumericColumn(cols[0]) then [Column("y", cols[0].cells)] + cols[1..]
    else
      FirstNumericTail(cols);
      [cols[0]] + RenameFirstNumeric(cols[1..])
  }

  /** Past a non-numeric head, the first numeric column is one place further on than in the tail. */
  lemma FirstNumericTail(cols: seq<Column>)
    requires cols != [] && !IsNumericColumn(cols[0])
    ensures forall j: nat :: FirstNumericAt(cols, j) ==> j > 0 && FirstNumericAt(cols[1..], j - 1)
  {
    forall j: nat | FirstNumericAt(cols, j) ensures j > 0 && FirstNumericAt(cols[1..], j - 1) {
      forall i | 0 <= i < j - 1 ensures !IsNumericColumn(cols[1..][i]) {
        assert cols[1..][i] == cols[i + 1];
      }
    }
  }

  /** The columns after the rename keep distinct names when "y" was not among them. */
  lemma RenameKeepsNamesDistinct(cols: seq<Column>)
    requires NoDup(Names(cols)) && "y" !in Names(cols)
    ensures NoDup(Names(RenameFirstNumeric(cols)))
  {
    var r := RenameFirstNumeric(cols);
    if j: nat :| FirstNumericAt(cols, j) {
      forall a, b | 0 <= a < b < |r| ensures Names(r)[a] != Names(r)[b] {
        assert Names(cols)[a] != Names(cols)[b];
        if a == j { assert Names(cols)[b] != "y"; }
        if b == j { assert Names(cols)[a] != "y"; }
      }
    } else {
      NoNumericBefore(cols, |cols|);
    }
  }

  /** The rename introduces no name other than "y". */
  lemma RenameOnlyAddsY(cols: seq<Column>)
    ensures forall k :: k in Names(RenameFirstNumeric(cols)) && k != "y" ==> k in Names(cols)
  {
    var r := RenameFirstNumeric(cols);
    if j: nat :| FirstNumericAt(cols, j) {
      forall k | k in Names(r) && k != "y" ensures k in Names(cols) {
        var a :| 0 <= a < |r| && Names(r)[a] == k;
        assert a != j;
        assert Names(cols)[a] == k;
      }
    } else {
      NoNumericBefore(cols, |cols|);
    }
  }

  lemma {:induction false} NoNumericBefore(cols: seq<Column>, n: nat)
    requires n <= |cols|
    requires forall j: nat :: !FirstNumericAt(cols, j)
    ensures forall i :: 0 <= i < n ==> !IsNumericColumn(cols[i])
  {
    if n > 0 {
      NoNumericBefore(cols, n - 1);
      assert !FirstNumericAt(cols, n - 1);
    }
  }

  // ---------------------------------------------------------------------
  // _procesar_datos_grafico after the table is built

  /** `set_index('x')` when there is an "x", then the rename when there is no "y". */
  function Reshape(f: Frame): (g: Frame)
    requires WellShaped(f)
    ensures WellShaped(g) && Height(g.index) == Height(f.index)
    ensures g.index == SetIndexX(f).index
    ensures "x" !in Names(g.columns)
  {
    var h := SetIndexX(f);
    if "y" !in Names(h.columns) && |h.columns| > 0 then
      RenameKeepsNamesDistinct(h.columns);
      RenameOnlyAddsY(h.columns);
      Frame(h.index, RenameFirstNumeric(h.columns))
    else h
  }
}
