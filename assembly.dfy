/**
 * The "Generate Reports" loop (organic_normal.py, lines 111-125): four
 * reports per sheet, two into the organic workbook and two into the
 * normal-and-loose workbook, each under a sheet name made from the input
 * sheet's name. The first call that raises ends the loop.
 */
module Assembly {
  import opened Wrappers
  import opened Cells
  import opened Registration
  import opened Tally
  import opened Rendering
  import opened Aggregation
  import opened Layout

  /** The sheets written to one output workbook, in writing order: (sheet name, report). */
  type Workbook = seq<(string, Report)>

  datatype Outputs = Outputs(organic: Workbook, loose: Workbook)

  const OrganicOnly: VariantFilter := Single("Organic")
  const NormalOrLoose: VariantFilter := AnyOf(["Normal", "Loose"])

  /**
   * The organic filter admits exactly the variant text "Organic", the other
   * exactly "Normal" and "Loose"; a missing or numeric variant passes
   * neither.
   */
  lemma FilterVariants(v: Cell)
    ensures Matches(OrganicOnly, v) <==> v == Text("Organic")
    ensures Matches(NormalOrLoose, v) <==> v == Text("Normal") || v == Text("Loose")
  {
    if v.Text? && v.s in ["Normal", "Loose"] {
      assert v.s == "Normal" || v.s == "Loose";
    }
  }

  ghost predicate AllRectangular(sheets: seq<(string, Sheet)>) {
    forall k :: 0 <= k < |sheets| ==> Rectangular(sheets[k].1)
  }

  /**
   * One sheet's contribution once its four calls have returned, in calling
   * order: the error of the first that raised, or the two reports for each
   * workbook under their sheet names.
   */
  function Combine(name: string, organicOff: Result<Report, Error>, organicBan: Result<Report, Error>,
                   normalOff: Result<Report, Error>, normalBan: Result<Report, Error>): (r: Result<Outputs, Error>)
    ensures r.Ok? ==> |r.value.organic| == 2 && |r.value.loose| == 2
  {
    if organicOff.Err? then Err(organicOff.error)
    else if organicBan.Err? then Err(organicBan.error)
    else if normalOff.Err? then Err(normalOff.error)
    else if normalBan.Err? then Err(normalBan.error)
    else Ok(Outputs([("Off-Label " + name, organicOff.value), ("Banned " + name, organicBan.value)],
                    [("Off-Label " + name, normalOff.value), ("Banned " + name, normalBan.value)]))
  }

  /** The four reports of one sheet, or the error of the first of the four calls that raises. */
  function SheetReports(name: string, t: Sheet, l: Ranges, commodityCol: string, variantCol: string): Result<Outputs, Error>
    requires Rectangular(t)
  {
    Combine(name,
      Aggregate(t, OrganicOnly, l.offlabelStart, l.offlabelEnd, "Off-label Organic", commodityCol, variantCol),
      Aggregate(t, OrganicOnly, l.bannedStart, l.bannedEnd, "Banned Organic", commodityCol, variantCol),
      Aggregate(t, NormalOrLoose, l.offlabelStart, l.offlabelEnd, "Off-label", commodityCol, variantCol),
      Aggregate(t, NormalOrLoose, l.bannedStart, l.bannedEnd, "Banned", commodityCol, variantCol))
  }

  /**
   * Both workbooks after a loop whose sheets gave `results` in turn: the
   * reports of every sheet, appended in order, or the first error.
   */
  function Collect(results: seq<Result<Outputs, Error>>): Result<Outputs, Error> {
    if results == [] then Ok(Outputs([], []))
    else
      match Collect(results[..|results| - 1])
      case Err(e) => Err(e)
      case Ok(o) =>
        match results[|results| - 1]
        case Err(e) => Err(e)
        case Ok(s) => Ok(Outputs(o.organic + s.organic, o.loose + s.loose))
  }

  /** What each sheet gives, in input order. */
  function PerSheet(sheets: seq<(string, Sheet)>, l: Ranges, commodityCol: string, variantCol: string): (rs: seq<Result<Outputs, Error>>)
    requires AllRectangular(sheets)
    ensures |rs| == |sheets|
  {
    seq(|sheets|, k requires 0 <= k < |sheets| => SheetReports(sheets[k].0, sheets[k].1, l, commodityCol, variantCol))
  }

  /** Both workbooks after the loop over `sheets`, or the first error raised. */
  function BuildReports(sheets: seq<(string, Sheet)>, l: Ranges, commodityCol: string, variantCol: string): Result<Outputs, Error>
    requires AllRectangular(sheets)
  {
    Collect(PerSheet(sheets, l, commodityCol, variantCol))
  }

  /** Once a prefix of the results holds an error, the later ones are never reached. */
  lemma {:induction false} ErrorPersists(results: seq<Result<Outputs, Error>>, k: nat)
    requires k <= |results| && Collect(results[..k]).Err?
    ensures Collect(results) == Collect(results[..k])
    decreases |results| - k
  {
    if k < |results| {
      var n := |results| - 1;
      assert results[..n][..k] == results[..k];
      ErrorPersists(results[..n], k);
    } else {
      assert results[..k] == results;
    }
  }

  /**
   * Collecting fails exactly when some result is an error, and then with
   * the first error; the results before it are all reports.
   */
  lemma {:induction false} FirstFailure(results: seq<Result<Outputs, Error>>)
    ensures Collect(results).Err? <==> exists k :: 0 <= k < |results| && results[k].Err?
    ensures Collect(results).Err? ==>
      exists k :: 0 <= k < |results| && results[k].Err? && Collect(results).error == results[k].error &&
        forall i :: 0 <= i < k ==> results[i].Ok?
  {
    if results != [] {
      var n := |results| - 1;
      var init := results[..n];
      FirstFailure(init);
      forall k | 0 <= k < n
        ensures results[k] == init[k]
      {
      }
    }
  }

  /** Collected reports of sheets that each wrote two per workbook: sheet `k` wrote entries `2k` and `2k+1`. */
  lemma {:induction false} CollectPairs(results: seq<Result<Outputs, Error>>)
    requires Collect(results).Ok?
    requires forall k :: 0 <= k < |results| && results[k].Ok? ==>
      |results[k].value.organic| == 2 && |results[k].value.loose| == 2
    ensures var o := Collect(results).value;
      |o.organic| == 2 * |results| && |o.loose| == 2 * |results|
    ensures var o := Collect(results).value;
      forall k :: 0 <= k < |results| ==>
        results[k].Ok? &&
        o.organic[2 * k] == results[k].value.organic[0] && o.organic[2 * k + 1] == results[k].value.organic[1] &&
        o.loose[2 * k] == results[k].value.loose[0] && o.loose[2 * k + 1] == results[k].value.loose[1]
  {
    if results != [] {
      var n := |results| - 1;
      var init := results[..n];
      forall k | 0 <= k < n
        ensures results[k] == init[k]
      {
      }
      CollectPairs(init);
    }
  }

  lemma CollectStep(results: seq<Result<Outputs, Error>>, k: nat)
    requires k < |results| && Collect(results[..k]).Ok?
    ensures var o := Collect(results[..k]).value;
      Collect(results[..k + 1]) ==
        match results[k]
        case Err(e) => Err(e)
        case Ok(s) => Ok(Outputs(o.organic + s.organic, o.loose + s.loose))
  {
    assert results[..k + 1][..k] == results[..k];
  }

  /** The body of the "Generate Reports" loop for one sheet (organic_normal.py, lines 113-125). */
  method ReportSheet(name: string, df: Sheet, l: Ranges, commodityCol: string, variantCol: string)
    returns (r: Result<Outputs, Error>)
    requires Rectangular(df)
    ensures r == SheetReports(name, df, l, commodityCol, variantCol)
  {
    var organicOff := ProcessData(df, OrganicOnly, l.offlabelStart, l.offlabelEnd, "Off-label Organic", commodityCol, variantCol);
    if organicOff.Err? {
      return Err(organicOff.error);
    }
    var organicBan := ProcessData(df, OrganicOnly, l.bannedStart, l.bannedEnd, "Banned Organic", commodityCol, variantCol);
    if organicBan.Err? {
      return Err(organicBan.error);
    }
    var normalOff := ProcessData(df, NormalOrLoose, l.offlabelStart, l.offlabelEnd, "Off-label", commodityCol, variantCol);
    if normalOff.Err? {
      return Err(normalOff.error);
    }
    var normalBan := ProcessData(df, NormalOrLoose, l.bannedStart, l.bannedEnd, "Banned", commodityCol, variantCol);
    if normalBan.Err? {
      return Err(normalBan.error);
    }
    var organic := [("Off-Label " + name, organicOff.value), ("Banned " + name, organicBan.value)];
    var loose := [("Off-Label " + name, normalOff.value), ("Banned " + name, normalBan.value)];
    return Ok(Outputs(organic, loose));
  }

  /** The "Generate Reports" loop (organic_normal.py, lines 111-125). */
  method GenerateReports(sheets: seq<(string, Sheet)>, l: Ranges, commodityCol: string, variantCol: string)
    returns (r: Result<Outputs, Error>)
    requires AllRectangular(sheets)
    ensures r == BuildReports(sheets, l, commodityCol, variantCol)
  {
    ghost var results := PerSheet(sheets, l, commodityCol, variantCol);
    var organic: Workbook := [];
    var loose: Workbook := [];
    var k := 0;
    while k < |sheets|
      invariant 0 <= k <= |sheets|
      invariant Collect(results[..k]) == Ok(Outputs(organic, loose))
    {
      var written := ReportSheet(sheets[k].0, sheets[k].1, l, commodityCol, variantCol);
      assert results[k] == written;
      CollectStep(results, k);
      if written.Err? {
        ErrorPersists(results, k + 1);
        return Err(written.error);
      }
      organic := organic + written.value.organic;
      loose := loose + written.value.loose;
      k := k + 1;
    }
    assert results[..k] == results;
    return Ok(Outputs(organic, loose));
  }

  /**
   * When no call raises, each workbook holds two sheets per input sheet,
   * in input order: the off-label report, then the banned one, with the
   * organic filter and labels in one workbook and the normal-or-loose
   * filter and labels in the other.
   */
  lemma Dispatch(sheets: seq<(string, Sheet)>, l: Ranges, commodityCol: string, variantCol: string)
    requires AllRectangular(sheets)
    requires BuildReports(sheets, l, commodityCol, variantCol).Ok?
    ensures var o := BuildReports(sheets, l, commodityCol, variantCol).value;
      |o.organic| == 2 * |sheets| && |o.loose| == 2 * |sheets|
    ensures var o := BuildReports(sheets, l, commodityCol, variantCol).value;
      forall k :: 0 <= k < |sheets| ==>
        var t := sheets[k].1;
        var organicOff := Aggregate(t, OrganicOnly, l.offlabelStart, l.offlabelEnd, "Off-label Organic", commodityCol, variantCol);
        var organicBan := Aggregate(t, OrganicOnly, l.bannedStart, l.bannedEnd, "Banned Organic", commodityCol, variantCol);
        var normalOff := Aggregate(t, NormalOrLoose, l.offlabelStart, l.offlabelEnd, "Off-label", commodityCol, variantCol);
        var normalBan := Aggregate(t, NormalOrLoose, l.bannedStart, l.bannedEnd, "Banned", commodityCol, variantCol);
        organicOff.Ok? && organicBan.Ok? && normalOff.Ok? && normalBan.Ok? &&
        o.organic[2 * k] == ("Off-Label " + sheets[k].0, organicOff.value) &&
        o.organic[2 * k + 1] == ("Banned " + sheets[k].0, organicBan.value) &&
        o.loose[2 * k] == ("Off-Label " + sheets[k].0, normalOff.value) &&
        o.loose[2 * k + 1] == ("Banned " + sheets[k].0, normalBan.value)
  {
    var results := PerSheet(sheets, l, commodityCol, variantCol);
    CollectPairs(results);
    var o := Collect(results).value;
    forall k | 0 <= k < |sheets|
      ensures var t := sheets[k].1;
        var organicOff := Aggregate(t, OrganicOnly, l.offlabelStart, l.offlabelEnd, "Off-label Organic", commodityCol, variantCol);
        var organicBan := Aggregate(t, OrganicOnly, l.bannedStart, l.bannedEnd, "Banned Organic", commodityCol, variantCol);
        var normalOff := Aggregate(t, NormalOrLoose, l.offlabelStart, l.offlabelEnd, "Off-label", commodityCol, variantCol);
        var normalBan := Aggregate(t, NormalOrLoose, l.bannedStart, l.bannedEnd, "Banned", commodityCol, variantCol);
        organicOff.Ok? && organicBan.Ok? && normalOff.Ok? && normalBan.Ok? &&
        o.organic[2 * k] == ("Off-Label " + sheets[k].0, organicOff.value) &&
        o.organic[2 * k + 1] == ("Banned " + sheets[k].0, organicBan.value) &&
        o.loose[2 * k] == ("Off-Label " + sheets[k].0, normalOff.value) &&
        o.loose[2 * k + 1] == ("Banned " + sheets[k].0, normalBan.value)
    {
      assert results[k] == SheetReports(sheets[k].0, sheets[k].1, l, commodityCol, variantCol);
    }
  }

  /**
   * The loop raises exactly when some sheet raises, and then with the
   * error of the first sheet that does; the sheets before it all succeed.
   */
  lemma FirstFailingSheet(sheets: seq<(string, Sheet)>, l: Ranges, commodityCol: string, variantCol: string)
    requires AllRectangular(sheets)
    ensures BuildReports(sheets, l, commodityCol, variantCol).Err? <==>
      exists k :: 0 <= k < |sheets| && SheetReports(sheets[k].0, sheets[k].1, l, commodityCol, variantCol).Err?
    ensures BuildReports(sheets, l, commodityCol, variantCol).Err? ==>
      exists k :: 0 <= k < |sheets| && SheetReports(sheets[k].0, sheets[k].1, l, commodityCol, variantCol).Err? &&
        BuildReports(sheets, l, commodityCol, variantCol).error == SheetReports(sheets[k].0, sheets[k].1, l, commodityCol, variantCol).error &&
        forall i :: 0 <= i < k ==> SheetReports(sheets[i].0, sheets[i].1, l, commodityCol, variantCol).Ok?
  {
    var results := PerSheet(sheets, l, commodityCol, variantCol);
    FirstFailure(results);
    if Collect(results).Err? {
      var k :| 0 <= k < |results| && results[k].Err? && Collect(results).error == results[k].error &&
        forall i :: 0 <= i < k ==> results[i].Ok?;
      assert SheetReports(sheets[k].0, sheets[k].1, l, commodityCol, variantCol) == results[k];
      forall i | 0 <= i < k
        ensures SheetReports(sheets[i].0, sheets[i].1, l, commodityCol, variantCol).Ok?
      {
        assert SheetReports(sheets[i].0, sheets[i].1, l, commodityCol, variantCol) == results[i];
      }
    } else {
      forall k | 0 <= k < |sheets|
        ensures SheetReports(sheets[k].0, sheets[k].1, l, commodityCol, variantCol).Ok?
      {
        assert SheetReports(sheets[k].0, sheets[k].1, l, commodityCol, variantCol) == results[k];
      }
    }
  }
}
