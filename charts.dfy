/**
 * `obtener_grafico`: which endpoint and parameters a metric name is
 * fetched with, and how a payload becomes a table, an empty one whenever
 * there is no data or any step would raise.
 */
module Charts {
  import opened Wrappers
  import opened JsonValues
  import opened Dicts
  import opened Requests
  import opened Frames

  const FeeLevelMetric: string := "mempool-state-by-fee-level"
  const FeeLevelEndpoint: string := "charts/mempool-state-by-fee-level/interval"

  /** The only parameters the fee-level route passes on, whatever the caller gave. */
  const FeeLevelParams: Dict<string> := [("cors", "true")]

  datatype Route = Route(endpoint: string, params: Dict<string>)

  /**
   * The endpoint and parameters a metric is fetched with. Either way the
   * endpoint is a chart endpoint; the fee-level metric ends up sent with
   * exactly the defaults, any other metric with the caller's parameters
   * at "charts/<name>".
   */
  function RouteChart(name: string, params: Dict<string>): (r: Route)
    ensures IsChartsEndpoint(r.endpoint)
    ensures name == FeeLevelMetric ==> ResolveParams(r.endpoint, r.params) == Defaults
    ensures name != FeeLevelMetric ==> r.endpoint == "charts/" + name && r.params == params
  {
    if name == FeeLevelMetric then
      FeeLevelRoute();
      Route(FeeLevelEndpoint, FeeLevelParams)
    else
      ChartsPrefix("/" + name);
      assert "charts/" + name == "charts" + ("/" + name);
      Route("charts/" + name, params)
  }

  lemma ChartsPrefix(rest: string)
    ensures IsChartsEndpoint("charts" + rest)
  {
    assert "charts" <= "charts" + rest;
  }

  /**
   * Routing and resolution together: both routes are chart endpoints, so
   * defaults are merged in; the fee-level metric is always sent with
   * exactly the defaults (its "cors" is already the default's value), any
   * other metric goes to "charts/<name>" with the caller's values over
   * the defaults.
   */
  lemma RouteChartResolves(name: string, params: Dict<string>, k: string)
    requires DistinctKeys(params)
    ensures IsChartsEndpoint(RouteChart(name, params).endpoint)
    ensures name == FeeLevelMetric ==>
      RouteChart(name, params).endpoint == FeeLevelEndpoint
      && ResolveParams(FeeLevelEndpoint, FeeLevelParams) == Defaults
    ensures name != FeeLevelMetric ==>
      RouteChart(name, params).endpoint == "charts/" + name
      && Get(ResolveParams("charts/" + name, params), k)
         == if HasKey(params, k) then Get(params, k) else Get(Defaults, k)
  {
    if name == FeeLevelMetric {
      FeeLevelRoute();
    } else {
      NamedRoute(name, params, k);
    }
  }

  lemma FeeLevelRoute()
    ensures IsChartsEndpoint(FeeLevelEndpoint)
    ensures ResolveParams(FeeLevelEndpoint, FeeLevelParams) == Defaults
  {
    FeeLevelIsCharts();
    FeeLevelResolvesToDefaults();
    ChartsMerge(FeeLevelEndpoint, FeeLevelParams);
  }

  lemma FeeLevelIsCharts()
    ensures IsChartsEndpoint(FeeLevelEndpoint)
  {
    assert "charts" <= FeeLevelEndpoint;
  }

  lemma ChartsMerge(endpoint: string, params: Dict<string>)
    requires IsChartsEndpoint(endpoint)
    ensures ResolveParams(endpoint, params) == Update(Defaults, params)
  {
  }

  lemma NamedRoute(name: string, params: Dict<string>, k: string)
    requires DistinctKeys(params)
    ensures IsChartsEndpoint("charts/" + name)
    ensures Get(ResolveParams("charts/" + name, params), k)
         == if HasKey(params, k) then Get(params, k) else Get(Defaults, k)
  {
    ChartsPrefix("/" + name);
    assert "charts/" + name == "charts" + ("/" + name);
    ResolveParamsPrecedence("charts/" + name, params, k);
  }

  lemma FeeLevelResolvesToDefaults()
    ensures Update(Defaults, FeeLevelParams) == Defaults
  {
    DefaultKeys();
    assert FeeLevelParams[1..] == [];
    assert Update(Defaults, FeeLevelParams) == Put(Defaults, "cors", "true");
    assert IndexOf(Keys(Defaults), "cors") == 4;
    assert Defaults[4 := ("cors", "true")] == Defaults;
  }

  // ---------------------------------------------------------------------
  // Payload to table

  /** `values` as pandas builds rows from it: a list of JSON objects. */
  predicate IsRecordList(v: Value) {
    v.JArr? && forall i :: 0 <= i < |v.items| ==> v.items[i].JObj?
  }

  function Records(items: seq<Value>): (records: seq<Dict<Value>>)
    requires forall i :: 0 <= i < |items| ==> items[i].JObj?
    ensures |records| == |items|
  {
    seq(|items|, i requires 0 <= i < |items| => items[i].members)
  }

  /**
   * `_procesar_datos_grafico` given `datos['values']`; None for every
   * shape other than a list of objects, including some pandas builds a
   * table from. A list of objects gives a well-shaped table with one row
   * per object and no "x" column.
   */
  function ProcessChartData(values: Value): (r: Option<Frame>)
    ensures r.Some? <==> IsRecordList(values)
    ensures r.Some? ==> WellShaped(r.value) && Height(r.value.index) == |values.items|
                        && "x" !in Names(r.value.columns)
  {
    if IsRecordList(values) then Some(Reshape(FromRecords(Records(values.items)))) else None
  }

  /**
   * What `obtener_grafico` returns for a payload. A payload that is not
   * an object either fails the no-data guard or raises when it is
   * indexed, and both give the empty table.
   */
  function ChartFrame(payload: Value): (f: Frame)
    ensures WellShaped(f)
    ensures !payload.JObj? || !Truthy(payload) ==> f == EmptyFrame
  {
    match payload
    case JObj(members) =>
      if !Truthy(payload) then EmptyFrame
      else (
        match Get(members, "values")
        case None => EmptyFrame
        case Some(values) =>
          if !Truthy(values) then EmptyFrame else ProcessChartData(values).GetOr(EmptyFrame)
      )
    case _ => EmptyFrame
  }

  /** `obtener_grafico`'s result for the outcome of its request: an error gives the empty table. */
  function ChartResult(reply: Reply): (f: Frame)
    ensures WellShaped(f)
    ensures reply.Err? ==> f == EmptyFrame
  {
    match reply
    case Ok(payload) => ChartFrame(payload)
    case Err(_) => EmptyFrame
  }

  /**
   * No data, no exception: a failed request, a falsy or non-object
   * payload, a missing or empty `values`, or a `values` that is not a
   * list of objects (the source raises on some such shapes and builds a
   * table from others; the model builds none) all give the empty table,
   * and every result is a well-shaped table.
   */
  lemma ChartResultNoData(reply: Reply)
    ensures WellShaped(ChartResult(reply))
    ensures reply.Err? ==> ChartResult(reply) == EmptyFrame
    ensures reply.Ok? && (
      || !reply.value.JObj?
      || !Truthy(reply.value)
      || !HasKey(reply.value.members, "values")
      || !Truthy(Get(reply.value.members, "values").value)
      || !IsRecordList(Get(reply.value.members, "values").value))
      ==> ChartResult(reply) == EmptyFrame
  {
  }

  /**
   * A non-empty list of objects gives one row per object; "x", when some
   * object has it, becomes the index (epoch seconds, in payload order) and
   * is no longer a column; when no object has "y" the first numeric
   * column is renamed "y", and when one does the columns are left as
   * they are; afterwards "y" is a column exactly when some object had it
   * or some column other than "x" is numeric.
   */
  lemma ChartFrameOfRecords(payload: Value, items: seq<Value>)
    requires payload.JObj? && Get(payload.members, "values") == Some(JArr(items))
    requires items != [] && forall i :: 0 <= i < |items| ==> items[i].JObj?
    ensures var df := ChartFrame(payload);
      var records := Records(items);
      var base := SetIndexX(FromRecords(records));
      && WellShaped(df) && Height(df.index) == |items|
      && "x" !in Names(df.columns)
      && (InSomeRecord(records, "x") ==> df.index == Labelled(ColumnOf(records, "x").cells))
      && (!InSomeRecord(records, "x") ==> df.index == Positional(|items|))
      && (InSomeRecord(records, "y") ==> df.columns == base.columns)
      && (!InSomeRecord(records, "y") ==> df.columns == RenameFirstNumeric(base.columns))
      && ("y" in Names(df.columns) <==>
            InSomeRecord(records, "y") || exists c :: c in base.columns && IsNumericColumn(c))
  {
    var records := Records(items);
    assert payload.members != [];
    assert ChartFrame(payload) == Reshape(FromRecords(records));
    ReshapeIndex(records);
    ReshapeColumns(records);
  }

  /** Where the index of the reshaped table comes from. */
  lemma ReshapeIndex(records: seq<Dict<Value>>)
    ensures var df := Reshape(FromRecords(records));
      && (InSomeRecord(records, "x") ==> df.index == Labelled(ColumnOf(records, "x").cells))
      && (!InSomeRecord(records, "x") ==> df.index == Positional(|records|))
      && "x" !in Names(df.columns)
  {
    var f := FromRecords(records);
    if InSomeRecord(records, "x") {
      var j := IndexOf(Names(f.columns), "x");
      assert f.columns[j] in f.columns;
      assert f.columns[j].name == "x";
    }
  }

  /** Which columns the reshaped table has, and when one of them is "y". */
  lemma ReshapeColumns(records: seq<Dict<Value>>)
    ensures var base := SetIndexX(FromRecords(records));
      var df := Reshape(FromRecords(records));
      && (InSomeRecord(records, "y") ==> df.columns == base.columns)
      && (!InSomeRecord(records, "y") ==> df.columns == RenameFirstNumeric(base.columns))
      && ("y" in Names(df.columns) <==>
            InSomeRecord(records, "y") || exists c :: c in base.columns && IsNumericColumn(c))
  {
    var base := SetIndexX(FromRecords(records));
    BaseHasY(records);
    if !InSomeRecord(records, "y") {
      RenameYIff(base.columns);
    }
  }

  /** Moving "x" to the index leaves "y" a column exactly when some record has it. */
  lemma BaseHasY(records: seq<Dict<Value>>)
    ensures "y" in Names(SetIndexX(FromRecords(records)).columns) <==> InSomeRecord(records, "y")
  {
  }

  /** Without a "y" column, the rename produces one exactly when some column is numeric. */
  lemma RenameYIff(cols: seq<Column>)
    requires "y" !in Names(cols)
    ensures "y" in Names(RenameFirstNumeric(cols)) <==> exists c :: c in cols && IsNumericColumn(c)
  {
    var r := RenameFirstNumeric(cols);
    if c :| c in cols && IsNumericColumn(c) {
      var j := FirstNumeric(cols);
      assert Names(r)[j] == "y";
    } else {
      assert forall i :: 0 <= i < |cols| ==> !IsNumericColumn(cols[i]) by {
        forall i | 0 <= i < |cols| ensures !IsNumericColumn(cols[i]) {
          assert cols[i] in cols;
        }
      }
    }
  }

  lemma {:induction false} FirstNumeric(cols: seq<Column>) returns (j: nat)
    requires exists c :: c in cols && IsNumericColumn(c)
    ensures FirstNumericAt(cols, j)
  {
    var c :| c in cols && IsNumericColumn(c);
    if IsNumericColumn(cols[0]) {
      j := 0;
    } else {
      assert c in cols[1..];
      var j' := FirstNumeric(cols[1..]);
      j := j' + 1;
    }
  }
}
