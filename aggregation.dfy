/**
 * `process_data` as a whole (organic_normal.py, lines 37-107): register the
 * pesticide blocks of a column range, tally the rows of the sheet whose
 * variant passes the filter, and emit one numbered row per
 * (pesticide, commodity).
 */
module Aggregation {
  import opened Wrappers
  import opened Cells
  import opened OrderedMaps
  import opened Registration
  import opened Tally
  import opened Rendering

  /** One sheet as pandas reads it: its header row and its data rows. */
  datatype Sheet = Sheet(headers: seq<string>, rows: seq<seq<Cell>>)

  /** A DataFrame is rectangular: every row has one cell per header. */
  ghost predicate Rectangular(t: Sheet) {
    forall j :: 0 <= j < |t.rows| ==> |t.rows[j]| == |t.headers|
  }

  /** Where `row[name]` reads: the first column called `name`, if there is one. */
  function ColumnPos(headers: seq<string>, name: string): (r: Option<nat>)
    ensures r.Some? ==> r.value < |headers| && headers[r.value] == name
    ensures r.Some? ==> forall j :: 0 <= j < r.value ==> headers[j] != name
    ensures r.None? ==> name !in headers
  {
    if headers == [] then None
    else if headers[0] == name then Some(0)
    else match ColumnPos(headers[1..], name)
      case None => None
      case Some(k) => Some(k + 1)
  }

  lemma {:induction false} BlocksReadable(t: Sheet, blocks: Blocks, cpos: nat, vpos: nat)
    requires Rectangular(t) && Valid(blocks) && BlocksFit(blocks, |t.headers|)
    requires cpos < |t.headers| && vpos < |t.headers|
    ensures Readable(Items(blocks), t.rows, cpos, vpos)
  {
  }

  /**
   * The samples `process_data` counts: none when registration fails, when
   * the sheet has no rows, or when it lacks the commodity or the variant
   * column; otherwise those of every row and registered block.
   */
  function SheetSamples(t: Sheet, filter: VariantFilter, start: int, end: int, commodityCol: string, variantCol: string): seq<Sample>
    requires Rectangular(t)
  {
    var registered := Register(t.headers, start, end);
    var cpos := ColumnPos(t.headers, commodityCol);
    var vpos := ColumnPos(t.headers, variantCol);
    if registered.Err? || t.rows == [] || cpos.None? || vpos.None? then []
    else
      BlocksReadable(t, registered.value, cpos.value, vpos.value);
      TableSamples(Items(registered.value), t.rows, filter, cpos.value, vpos.value)
  }

  /**
   * What `process_data(df, _, variant_filter, start_col, end_col, type_name)`
   * returns or raises. `row[commodity_col]` and `row[variant_col]` are only
   * read once there is a row, so a sheet without rows never raises
   * `KeyError`.
   */
  function Aggregate(t: Sheet, filter: VariantFilter, start: int, end: int, typeName: string,
                     commodityCol: string, variantCol: string): Result<Report, Error>
    requires Rectangular(t)
  {
    var registered := Register(t.headers, start, end);
    if registered.Err? then Err(registered.error)
    else if t.rows != [] && ColumnPos(t.headers, commodityCol).None? then Err(KeyError(commodityCol))
    else if t.rows != [] && ColumnPos(t.headers, variantCol).None? then Err(KeyError(variantCol))
    else
      var samples := SheetSamples(t, filter, start, end, commodityCol, variantCol);
      AccumulateValid(samples);
      Ok(Report(Columns(typeName), Render(Accumulate(samples))))
  }

  /** `process_data` (organic_normal.py, lines 37-107). */
  method ProcessData(df: Sheet, filter: VariantFilter, start: int, end: int, typeName: string,
                     commodityCol: string, variantCol: string) returns (result: Result<Report, Error>)
    requires Rectangular(df)
    ensures result == Aggregate(df, filter, start, end, typeName, commodityCol, variantCol)
  {
    var registered := RegisterPesticides(df.headers, start, end);
    if registered.Err? {
      return Err(registered.error);
    }
    var indexes := registered.value;
    var data: Data := Empty();
    if |df.rows| > 0 {
      var cpos := ColumnPos(df.headers, commodityCol);
      if cpos.None? {
        return Err(KeyError(commodityCol));
      }
      var vpos := ColumnPos(df.headers, variantCol);
      if vpos.None? {
        return Err(KeyError(variantCol));
      }
      BlocksReadable(df, indexes, cpos.value, vpos.value);
      data := TallyRows(Items(indexes), df.rows, filter, cpos.value, vpos.value);
    }
    AccumulateValid(SheetSamples(df, filter, start, end, commodityCol, variantCol));
    var rows := EmitRows(data);
    return Ok(Report(Columns(typeName), rows));
  }

  /**
   * Every row of a report summarises exactly the samples of its
   * (pesticide, commodity): how many were counted, how many were unsafe,
   * the least and greatest unsafe value, and the unsafe share; rows are
   * numbered 1, 2, ...; every pair with a sample has a row, and no pair has
   * two.
   */
  lemma {:induction false} ReportRows(t: Sheet, filter: VariantFilter, start: int, end: int, typeName: string,
                                      commodityCol: string, variantCol: string)
    requires Rectangular(t)
    requires Aggregate(t, filter, start, end, typeName, commodityCol, variantCol).Ok?
    ensures var rep := Aggregate(t, filter, start, end, typeName, commodityCol, variantCol).value;
      var samples := SheetSamples(t, filter, start, end, commodityCol, variantCol);
      rep.columns == Columns(typeName) &&
      forall j :: 0 <= j < |rep.rows| ==>
        var m := Matching(samples, rep.rows[j].pesticide, rep.rows[j].commodity);
        var u := UnsafeValues(m);
        rep.rows[j].serial == j + 1 && m != [] &&
        rep.rows[j].total == |m| && rep.rows[j].unsafe == |u| &&
        rep.rows[j].min == Shown(SeqMin(u)) && rep.rows[j].max == Shown(SeqMax(u)) &&
        rep.rows[j].percentUnsafe == |u| as real / |m| as real * 100.0
    ensures var rep := Aggregate(t, filter, start, end, typeName, commodityCol, variantCol).value;
      var samples := SheetSamples(t, filter, start, end, commodityCol, variantCol);
      forall p, c :: Matching(samples, p, c) != [] ==>
        exists j :: 0 <= j < |rep.rows| && rep.rows[j].pesticide == p && rep.rows[j].commodity == c
    ensures var rep := Aggregate(t, filter, start, end, typeName, commodityCol, variantCol).value;
      forall i, j :: 0 <= i < j < |rep.rows| ==>
        rep.rows[i].pesticide != rep.rows[j].pesticide || rep.rows[i].commodity != rep.rows[j].commodity
  {
    var samples := SheetSamples(t, filter, start, end, commodityCol, variantCol);
    var d := Accumulate(samples);
    AccumulateValid(samples);
    RenderRows(d);
    RenderComplete(d);
    RenderDistinct(d);
    var rows := Render(d);
    assert Aggregate(t, filter, start, end, typeName, commodityCol, variantCol).value == Report(Columns(typeName), rows);
    forall j | 0 <= j < |rows|
      ensures var m := Matching(samples, rows[j].pesticide, rows[j].commodity);
        var u := UnsafeValues(m);
        rows[j].serial == j + 1 && m != [] &&
        rows[j].total == |m| && rows[j].unsafe == |u| &&
        rows[j].min == Shown(SeqMin(u)) && rows[j].max == Shown(SeqMax(u)) &&
        rows[j].percentUnsafe == |u| as real / |m| as real * 100.0
    {
      AccumulateRecord(samples, rows[j].pesticide, rows[j].commodity);
    }
    forall p, c | Matching(samples, p, c) != []
      ensures exists j :: 0 <= j < |rows| && rows[j].pesticide == p && rows[j].commodity == c
    {
      AccumulateRecord(samples, p, c);
    }
  }

  /**
   * Rows come in the order pesticides were first counted, and for one
   * pesticide in the order its commodities were first counted.
   */
  lemma {:induction false} ReportOrder(t: Sheet, filter: VariantFilter, start: int, end: int, typeName: string,
                                       commodityCol: string, variantCol: string)
    requires Rectangular(t)
    requires Aggregate(t, filter, start, end, typeName, commodityCol, variantCol).Ok?
    ensures var rows := Aggregate(t, filter, start, end, typeName, commodityCol, variantCol).value.rows;
      var samples := SheetSamples(t, filter, start, end, commodityCol, variantCol);
      forall i, j :: 0 <= i < j < |rows| ==>
        (rows[i].pesticide != rows[j].pesticide ==> Before(Dedup(Pesticides(samples)), rows[i].pesticide, rows[j].pesticide)) &&
        (rows[i].pesticide == rows[j].pesticide ==> Before(Dedup(CommoditiesOf(samples, rows[i].pesticide)), rows[i].commodity, rows[j].commodity))
  {
    var samples := SheetSamples(t, filter, start, end, commodityCol, variantCol);
    var d := Accumulate(samples);
    AccumulateValid(samples);
    PesticideOrder(samples);
    RenderOrdered(d);
    var rows := Render(d);
    assert Aggregate(t, filter, start, end, typeName, commodityCol, variantCol).value.rows == rows;
    forall i, j | 0 <= i < j < |rows| && rows[i].pesticide == rows[j].pesticide
      ensures Before(Dedup(CommoditiesOf(samples, rows[i].pesticide)), rows[i].commodity, rows[j].commodity)
    {
      CommodityOrder(samples, rows[i].pesticide);
    }
  }

  lemma {:induction false} NoBlocksNoSamples(rows: seq<seq<Cell>>, filter: VariantFilter, cpos: nat, vpos: nat)
    requires Readable([], rows, cpos, vpos)
    ensures TableSamples([], rows, filter, cpos, vpos) == []
  {
    if rows != [] {
      NoBlocksNoSamples(rows[..|rows| - 1], filter, cpos, vpos);
    }
  }

  /**
   * A range that registers nothing (`start_col` at or past the end) gives
   * a report with the columns and no row, unless the sheet has rows and
   * lacks the commodity or the variant column.
   */
  lemma EmptyRangeReport(t: Sheet, filter: VariantFilter, start: int, end: int, typeName: string,
                         commodityCol: string, variantCol: string)
    requires Rectangular(t)
    requires start >= Min(end, |t.headers|)
    ensures Aggregate(t, filter, start, end, typeName, commodityCol, variantCol) ==
      if t.rows != [] && commodityCol !in t.headers then Err(KeyError(commodityCol))
      else if t.rows != [] && variantCol !in t.headers then Err(KeyError(variantCol))
      else Ok(Report(Columns(typeName), []))
  {
    EmptyRange(t.headers, start, end);
    var cpos := ColumnPos(t.headers, commodityCol);
    var vpos := ColumnPos(t.headers, variantCol);
    if t.rows != [] && cpos.Some? && vpos.Some? {
      NoBlocksNoSamples(t.rows, filter, cpos.value, vpos.value);
    }
    assert SheetSamples(t, filter, start, end, commodityCol, variantCol) == [];
  }

  /**
   * Where a counted sample comes from: a row whose variant passes the
   * filter and a column of the range, on the stride of three, headed by the
   * sample's pesticide, whose value cell parses to the sample's value and
   * whose next cell is its compliance.
   */
  lemma SampleSources(t: Sheet, filter: VariantFilter, start: int, end: int, commodityCol: string, variantCol: string, s: Sample)
    requires Rectangular(t) && 0 <= start
    requires s in SheetSamples(t, filter, start, end, commodityCol, variantCol)
    ensures ColumnPos(t.headers, commodityCol).Some? && ColumnPos(t.headers, variantCol).Some?
    ensures var cpos := ColumnPos(t.headers, commodityCol).value;
      var vpos := ColumnPos(t.headers, variantCol).value;
      exists j, i :: 0 <= j < |t.rows| && InStride(i, start, Min(end, |t.headers|)) && i + 1 < |t.headers| &&
        Matches(filter, t.rows[j][vpos]) && t.headers[i] == s.pesticide && s.commodity == t.rows[j][cpos] &&
        ParseValue(t.rows[j][i]) == Some(s.value) && s.unsafe == IsUnsafe(t.rows[j][i + 1])
  {
    RegisteredBlocks(t.headers, start, end);
    var blocks := Register(t.headers, start, end).value;
    var cpos := ColumnPos(t.headers, commodityCol).value;
    var vpos := ColumnPos(t.headers, variantCol).value;
    BlocksReadable(t, blocks, cpos, vpos);
    var items := Items(blocks);
    SampleOrigin(items, t.rows, filter, cpos, vpos, s);
    var j, k :| 0 <= j < |t.rows| && 0 <= k < |items| && Matches(filter, t.rows[j][vpos]) && ReadFrom(items[k], t.rows[j], cpos, s);
    var i := items[k].1.valueCol;
    assert items[k].0 in blocks.entries;
    assert InStride(i, start, Min(end, |t.headers|)) && i + 1 < |t.headers|;
  }
  /**
   * The converse of `SampleSources`: in every row whose variant passes the
   * filter, the value cell of every registered pesticide that parses is
   * counted, under the row's commodity, with that pesticide's compliance
   * flag.
   */
  lemma SampleCounted(t: Sheet, filter: VariantFilter, start: int, end: int, commodityCol: string, variantCol: string,
                      j: nat, name: string)
    requires Rectangular(t)
    requires Register(t.headers, start, end).Ok? && name in Register(t.headers, start, end).value.entries
    requires ColumnPos(t.headers, commodityCol).Some? && ColumnPos(t.headers, variantCol).Some?
    requires j < |t.rows| && Matches(filter, t.rows[j][ColumnPos(t.headers, variantCol).value])
    requires ParseValue(t.rows[j][Register(t.headers, start, end).value.entries[name].valueCol]).Some?
    ensures var b := Register(t.headers, start, end).value.entries[name];
      var row := t.rows[j];
      Sample(name, row[ColumnPos(t.headers, commodityCol).value], ParseValue(row[b.valueCol]).value, IsUnsafe(row[b.complianceCol]))
        in SheetSamples(t, filter, start, end, commodityCol, variantCol)
  {
    var blocks := Register(t.headers, start, end).value;
    var cpos := ColumnPos(t.headers, commodityCol).value;
    var vpos := ColumnPos(t.headers, variantCol).value;
    BlocksReadable(t, blocks, cpos, vpos);
    var items := Items(blocks);
    var k :| 0 <= k < |items| && items[k].0 == name;
    SampleIncluded(items, t.rows, filter, cpos, vpos, j, k);
  }

  /**
   * How many samples a (pesticide, commodity) has: for a registered
   * pesticide, the number of rows that pass the filter, have that commodity,
   * and hold a value that parses in the pesticide's value column; for any
   * other name, none.
   */
  lemma SampleCount(t: Sheet, filter: VariantFilter, start: int, end: int, commodityCol: string, variantCol: string,
                    name: string, c: Cell)
    requires Rectangular(t) && Register(t.headers, start, end).Ok?
    requires ColumnPos(t.headers, commodityCol).Some? && ColumnPos(t.headers, variantCol).Some?
    ensures var d := Register(t.headers, start, end).value;
      |Matching(SheetSamples(t, filter, start, end, commodityCol, variantCol), name, c)| ==
        if name in d.entries
        then CountedRows(t.rows, filter, ColumnPos(t.headers, commodityCol).value, ColumnPos(t.headers, variantCol).value,
                         d.entries[name].valueCol, c)
        else 0
  {
    var blocks := Register(t.headers, start, end).value;
    var cpos := ColumnPos(t.headers, commodityCol).value;
    var vpos := ColumnPos(t.headers, variantCol).value;
    if t.rows != [] {
      BlocksReadable(t, blocks, cpos, vpos);
      var items := Items(blocks);
      if name in blocks.entries {
        var k :| 0 <= k < |items| && items[k].0 == name;
        TableMatchCount(items, t.rows, filter, cpos, vpos, k, c);
      } else {
        TableNoMatch(items, t.rows, filter, cpos, vpos, name, c);
      }
    }
  }

  /**
   * Each report row's "Total Samples" is the number of rows that pass the
   * filter, have the row's commodity, and hold a value that parses in the
   * row's pesticide's value column; that pesticide is a registered one.
   */
  lemma ReportTotals(t: Sheet, filter: VariantFilter, start: int, end: int, typeName: string,
                     commodityCol: string, variantCol: string)
    requires Rectangular(t)
    requires Aggregate(t, filter, start, end, typeName, commodityCol, variantCol).Ok?
    requires ColumnPos(t.headers, commodityCol).Some? && ColumnPos(t.headers, variantCol).Some?
    ensures Register(t.headers, start, end).Ok?
    ensures var rows := Aggregate(t, filter, start, end, typeName, commodityCol, variantCol).value.rows;
      var d := Register(t.headers, start, end).value;
      forall j :: 0 <= j < |rows| ==>
        rows[j].pesticide in d.entries &&
        rows[j].total == CountedRows(t.rows, filter, ColumnPos(t.headers, commodityCol).value,
                                     ColumnPos(t.headers, variantCol).value, d.entries[rows[j].pesticide].valueCol, rows[j].commodity)
  {
    ReportRows(t, filter, start, end, typeName, commodityCol, variantCol);
    var rows := Aggregate(t, filter, start, end, typeName, commodityCol, variantCol).value.rows;
    forall j | 0 <= j < |rows|
      ensures var d := Register(t.headers, start, end).value;
        rows[j].pesticide in d.entries &&
        rows[j].total == CountedRows(t.rows, filter, ColumnPos(t.headers, commodityCol).value,
                                     ColumnPos(t.headers, variantCol).value, d.entries[rows[j].pesticide].valueCol, rows[j].commodity)
    {
      SampleCount(t, filter, start, end, commodityCol, variantCol, rows[j].pesticide, rows[j].commodity);
    }
  }
}
