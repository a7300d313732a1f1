/**
 * Properties of the whole region stage of `process_image`
 * (`Regions.Process`): when it fails and with which error, how many regions
 * it returns and which tags they carry, the reading order of the output,
 * how the areas follow the calibration, and how the report text becomes
 * CSV rows.
 */
module Pipeline {

  import opened Results
  import Python
  import Utils
  import Labels
  import opened Regions

  /**
   * The number of regions the stage returns when it succeeds: the first 24
   * of the `found` large contours, then `[:max_regions]`.
   */
  function Shown(found: nat, maxRegions: int): (n: nat)
    ensures n <= found && n <= TopCount
  {
    Python.SliceBound(maxRegions, Python.Min(found, TopCount))
  }

  /**
   * The count is that of the two cuts the stage makes, the top 24 and then
   * `[:max_regions]`: applied to any list, they leave its first `Shown`
   * elements.
   */
  lemma ShownIsTwoCuts<T>(s: seq<T>, maxRegions: int)
    ensures Python.Take(Python.Take(s, TopCount), maxRegions) == s[..Shown(|s|, maxRegions)]
  {
    var t := Python.Take(s, TopCount);
    Python.TakeIsPrefix(s, TopCount);
    assert |t| == Python.Min(|s|, TopCount);
    Python.TakeIsPrefix(t, maxRegions);
  }

  /** The candidates are numbered 1, 2, ... in row order; there are `Shown` of them. */
  lemma CandidatesNumbered(img: Image, top: seq<Rect>, s: int, conversionFactor: real, maxRegions: int)
    ensures |Candidates(img, top, s, conversionFactor, maxRegions)| == Python.SliceBound(maxRegions, |top|)
    ensures forall i :: 0 <= i < |Candidates(img, top, s, conversionFactor, maxRegions)| ==>
      Candidates(img, top, s, conversionFactor, maxRegions)[i].number == i + 1
  {
    var ordered := RowOrder(CentreAll(img, top, s));
    RowOrderLength(CentreAll(img, top, s));
    Python.TakeIsPrefix(MeasureAll(Renumbered(ordered), conversionFactor), maxRegions);
  }

  /**
   * Looking up the labels of regions numbered 1..n succeeds exactly when
   * every rank 1..n has a label; otherwise the KeyError names the smallest
   * rank without one; on success region i carries the label of rank i + 1.
   */
  lemma LabelAllRanks(s: seq<Measured>, labelMapping: map<int, string>)
    requires forall i :: 0 <= i < |s| ==> s[i].number == i + 1
    ensures LabelAll(s, labelMapping).Ok? <==> forall r :: 1 <= r <= |s| ==> r in labelMapping
    ensures LabelAll(s, labelMapping).Err? ==>
      exists r :: (1 <= r <= |s| && r !in labelMapping &&
        (forall q :: 1 <= q < r ==> q in labelMapping) && LabelAll(s, labelMapping).error == KeyError(r))
    ensures LabelAll(s, labelMapping).Ok? ==>
      (|LabelAll(s, labelMapping).value| == |s| &&
       forall i :: 0 <= i < |s| ==> LabelAll(s, labelMapping).value[i] == WithLabel(s[i], labelMapping[i + 1]))
  {
    var k := FirstMissing(s, labelMapping);
    if k < |s| {
      assert s[k].number == k + 1;
      forall q | 1 <= q < k + 1
        ensures q in labelMapping
      {
        assert s[q - 1].number == q;
      }
    } else {
      forall r | 1 <= r <= |s|
        ensures r in labelMapping
      {
        assert s[r - 1].number == r;
      }
    }
  }

  /** The error of the whole stage, and when it succeeds. */
  lemma ProcessOutcome(contours: seq<Contour>, img: Image, conversionFactor: real, labelMapping: map<int, string>,
                       maxRegions: int, gridSize: int, numColumns: int, formatArea: real -> string)
    ensures var res := Process(contours, img, conversionFactor, labelMapping, maxRegions, gridSize, numColumns, formatArea);
      res == Err(EmptyMax) <==> KeptRects(contours) == []
    ensures var res := Process(contours, img, conversionFactor, labelMapping, maxRegions, gridSize, numColumns, formatArea);
      var n := Shown(|KeptRects(contours)|, maxRegions);
      (res.Err? && res.error.KeyError?) <==> (KeptRects(contours) != [] && exists r :: 1 <= r <= n && r !in labelMapping)
    ensures var res := Process(contours, img, conversionFactor, labelMapping, maxRegions, gridSize, numColumns, formatArea);
      var n := Shown(|KeptRects(contours)|, maxRegions);
      res.Err? && res.error.KeyError? ==>
        1 <= res.error.key <= n && res.error.key !in labelMapping &&
        forall q :: 1 <= q < res.error.key ==> q in labelMapping
    ensures var res := Process(contours, img, conversionFactor, labelMapping, maxRegions, gridSize, numColumns, formatArea);
      var n := Shown(|KeptRects(contours)|, maxRegions);
      res.Ok? <==> (KeptRects(contours) != [] && (forall r :: 1 <= r <= n ==> r in labelMapping) &&
                    gridSize >= 2 && numColumns >= 2 && n <= gridSize * numColumns)
    ensures var res := Process(contours, img, conversionFactor, labelMapping, maxRegions, gridSize, numColumns, formatArea);
      var n := Shown(|KeptRects(contours)|, maxRegions);
      res.Ok? ==>
        (&& |res.value.regions| == n
         && (forall i :: 0 <= i < n ==> i + 1 in labelMapping && res.value.regions[i].tag == labelMapping[i + 1])
         && res.value.layout == GridLayout(n, gridSize, numColumns).value
         && res.value.text == ReportText(res.value.regions, formatArea))
  {
    var kept := KeptRects(contours);
    var top := TopOf(contours, img);
    TopRectsPrefix(Ranked(ScoreAll(img, kept)));
    assert |top| == Python.Min(|kept|, TopCount);
    if top != [] {
      var s := MaxSquareSize(top).value;
      var cands := Candidates(img, top, s, conversionFactor, maxRegions);
      CandidatesNumbered(img, top, s, conversionFactor, maxRegions);
      LabelAllRanks(cands, labelMapping);
    }
  }

  /** Preset 1 has a label for every rank the stage can produce, so it never raises KeyError. */
  lemma Preset1NeverMissesALabel(contours: seq<Contour>, img: Image, conversionFactor: real,
                                 maxRegions: int, gridSize: int, numColumns: int, formatArea: real -> string)
    ensures Labels.ChooseLabel(1).Ok?
    ensures var res := Process(contours, img, conversionFactor, Labels.ChooseLabel(1).value, maxRegions, gridSize, numColumns, formatArea);
      !(res.Err? && res.error.KeyError?)
  {
    var m := Labels.ChooseLabel(1).value;
    ProcessOutcome(contours, img, conversionFactor, m, maxRegions, gridSize, numColumns, formatArea);
  }

  /** Preset 2 only labels ranks 1..5: a sixth region makes the stage raise KeyError(6). */
  lemma Preset2FailsOnSixthRegion(contours: seq<Contour>, img: Image, conversionFactor: real,
                                  maxRegions: int, gridSize: int, numColumns: int, formatArea: real -> string)
    requires Shown(|KeptRects(contours)|, maxRegions) > 5
    ensures Labels.ChooseLabel(2).Ok?
    ensures Process(contours, img, conversionFactor, Labels.ChooseLabel(2).value, maxRegions, gridSize, numColumns, formatArea)
      == Err(KeyError(6))
  {
    var m := Labels.ChooseLabel(2).value;
    ProcessOutcome(contours, img, conversionFactor, m, maxRegions, gridSize, numColumns, formatArea);
    assert 6 !in m;
    var res := Process(contours, img, conversionFactor, m, maxRegions, gridSize, numColumns, formatArea);
    assert res.error.key == 6 by {
      assert forall q :: 1 <= q <= 5 ==> q in m;
    }
  }

  /**
   * The regions come out in reading order: centre x does not decrease
   * within a row of 4, and no region of a row lies below a region of a
   * later row.
   */
  lemma ProcessReadingOrder(contours: seq<Contour>, img: Image, conversionFactor: real, labelMapping: map<int, string>,
                            maxRegions: int, gridSize: int, numColumns: int, formatArea: real -> string)
    requires Process(contours, img, conversionFactor, labelMapping, maxRegions, gridSize, numColumns, formatArea).Ok?
    ensures var rs := Process(contours, img, conversionFactor, labelMapping, maxRegions, gridSize, numColumns, formatArea).value.regions;
      forall i, j :: 0 <= i < j < |rs| && i / RowWidth == j / RowWidth ==> rs[i].centreX <= rs[j].centreX
    ensures var rs := Process(contours, img, conversionFactor, labelMapping, maxRegions, gridSize, numColumns, formatArea).value.regions;
      forall i, j :: 0 <= i < |rs| && 0 <= j < |rs| && i / RowWidth < j / RowWidth ==> rs[i].centreY <= rs[j].centreY
  {
    var top := TopOf(contours, img);
    var s := MaxSquareSize(top).value;
    var centred := CentreAll(img, top, s);
    var t := RowOrder(centred);
    var cands := Candidates(img, top, s, conversionFactor, maxRegions);
    RowOrderRows(centred);
    CandidatesNumbered(img, top, s, conversionFactor, maxRegions);
    Python.TakeIsPrefix(MeasureAll(Renumbered(t), conversionFactor), maxRegions);
    LabelAllRanks(cands, labelMapping);
    var rs := LabelAll(cands, labelMapping).value;
    assert |rs| == |cands| <= |t|;
    forall i | 0 <= i < |rs|
      ensures rs[i].centreX == t[i].centreX && rs[i].centreY == t[i].centreY
    {
      assert rs[i] == WithLabel(cands[i], labelMapping[i + 1]);
    }
  }

  /** Two sequences whose numbers agree meet their first unlabelled number at the same place. */
  lemma {:induction false} FirstMissingByNumbers(s1: seq<Measured>, s2: seq<Measured>, labelMapping: map<int, string>)
    requires |s1| == |s2| && forall i :: 0 <= i < |s1| ==> s1[i].number == s2[i].number
    ensures FirstMissing(s1, labelMapping) == FirstMissing(s2, labelMapping)
  {
    if s1 != [] {
      FirstMissingByNumbers(s1[1..], s2[1..], labelMapping);
    }
  }

  /**
   * The conversion factor only reaches the areas: under two factors the
   * stage fails in the same way, or succeeds with the same regions, tags
   * and layout, the regions differing in their areas alone.
   */
  lemma ProcessFactorOnlyAreas(contours: seq<Contour>, img: Image, cf1: real, cf2: real, labelMapping: map<int, string>,
                               maxRegions: int, gridSize: int, numColumns: int, formatArea: real -> string)
    ensures var a := Process(contours, img, cf1, labelMapping, maxRegions, gridSize, numColumns, formatArea);
      var b := Process(contours, img, cf2, labelMapping, maxRegions, gridSize, numColumns, formatArea);
      && (a.Ok? <==> b.Ok?)
      && (a.Err? ==> b == a)
      && (a.Ok? ==>
            && |b.value.regions| == |a.value.regions|
            && b.value.layout == a.value.layout
            && forall i :: 0 <= i < |a.value.regions| ==>
                 b.value.regions[i] == a.value.regions[i].(area := b.value.regions[i].area))
  {
    var top := TopOf(contours, img);
    if top != [] {
      var s := MaxSquareSize(top).value;
      var ca, cb := Candidates(img, top, s, cf1, maxRegions), Candidates(img, top, s, cf2, maxRegions);
      CandidatesByFactor(img, top, s, cf1, cf2, maxRegions);
      FirstMissingByNumbers(ca, cb, labelMapping);
    }
  }

  /** The candidates under two factors differ in their areas alone. */
  lemma CandidatesByFactor(img: Image, top: seq<Rect>, s: int, cf1: real, cf2: real, maxRegions: int)
    ensures var ca, cb := Candidates(img, top, s, cf1, maxRegions), Candidates(img, top, s, cf2, maxRegions);
      |cb| == |ca| && forall i :: 0 <= i < |ca| ==> cb[i] == ca[i].(area := cb[i].area)
  {
    var t := Renumbered(RowOrder(CentreAll(img, top, s)));
    Python.TakeIsPrefix(MeasureAll(t, cf1), maxRegions);
    Python.TakeIsPrefix(MeasureAll(t, cf2), maxRegions);
  }

  /** Every area the stage reports is its crop's count of non-zero channel values times the squared factor. */
  lemma ProcessAreas(contours: seq<Contour>, img: Image, conversionFactor: real, labelMapping: map<int, string>,
                     maxRegions: int, gridSize: int, numColumns: int, formatArea: real -> string)
    requires Process(contours, img, conversionFactor, labelMapping, maxRegions, gridSize, numColumns, formatArea).Ok?
    ensures var rs := Process(contours, img, conversionFactor, labelMapping, maxRegions, gridSize, numColumns, formatArea).value.regions;
      forall i :: 0 <= i < |rs| ==> rs[i].area == Area(ImageNonZero(rs[i].crop), conversionFactor)
  {
    var top := TopOf(contours, img);
    var s := MaxSquareSize(top).value;
    var t := Renumbered(RowOrder(CentreAll(img, top, s)));
    Python.TakeIsPrefix(MeasureAll(t, conversionFactor), maxRegions);
  }

  /**
   * Calibrating with `k` times the conversion factor multiplies every
   * reported area by `k * k` and changes nothing else.
   */
  lemma ProcessAreaScaling(contours: seq<Contour>, img: Image, conversionFactor: real, k: real, labelMapping: map<int, string>,
                           maxRegions: int, gridSize: int, numColumns: int, formatArea: real -> string)
    requires Process(contours, img, conversionFactor, labelMapping, maxRegions, gridSize, numColumns, formatArea).Ok?
    ensures Process(contours, img, k * conversionFactor, labelMapping, maxRegions, gridSize, numColumns, formatArea).Ok?
    ensures var a := Process(contours, img, conversionFactor, labelMapping, maxRegions, gridSize, numColumns, formatArea).value.regions;
      var b := Process(contours, img, k * conversionFactor, labelMapping, maxRegions, gridSize, numColumns, formatArea).value.regions;
      b == ScaleAreas(a, k)
  {
    var cf2 := k * conversionFactor;
    ProcessFactorOnlyAreas(contours, img, conversionFactor, cf2, labelMapping, maxRegions, gridSize, numColumns, formatArea);
    ProcessAreas(contours, img, conversionFactor, labelMapping, maxRegions, gridSize, numColumns, formatArea);
    ProcessAreas(contours, img, cf2, labelMapping, maxRegions, gridSize, numColumns, formatArea);
    var a := Process(contours, img, conversionFactor, labelMapping, maxRegions, gridSize, numColumns, formatArea).value.regions;
    var b := Process(contours, img, cf2, labelMapping, maxRegions, gridSize, numColumns, formatArea).value.regions;
    ScaledAreas(a, b, conversionFactor, k);
  }

  lemma ScaledAreas(a: seq<Labeled>, b: seq<Labeled>, conversionFactor: real, k: real)
    requires |b| == |a| && forall i :: 0 <= i < |a| ==> b[i] == a[i].(area := b[i].area)
    requires forall i :: 0 <= i < |a| ==> a[i].area == Area(ImageNonZero(a[i].crop), conversionFactor)
    requires forall i :: 0 <= i < |b| ==> b[i].area == Area(ImageNonZero(b[i].crop), k * conversionFactor)
    ensures b == ScaleAreas(a, k)
  {
    forall i | 0 <= i < |a|
      ensures b[i] == a[i].(area := k * k * a[i].area)
    {
      AreaScaling(ImageNonZero(a[i].crop), conversionFactor, k);
    }
    var scaled := ScaleAreas(a, k);
    assert |scaled| == |b| && forall i :: 0 <= i < |b| ==> scaled[i] == b[i];
  }

  /** The regions with every area multiplied by `k * k`. */
  function ScaleAreas(rs: seq<Labeled>, k: real): seq<Labeled>
  {
    seq(|rs|, i requires 0 <= i < |rs| => rs[i].(area := k * k * rs[i].area))
  }

  /** The report text of a successful run, whose labels come from the mapping. */
  lemma ProcessTags(contours: seq<Contour>, img: Image, conversionFactor: real, labelMapping: map<int, string>,
                    maxRegions: int, gridSize: int, numColumns: int, formatArea: real -> string)
    requires Process(contours, img, conversionFactor, labelMapping, maxRegions, gridSize, numColumns, formatArea).Ok?
    requires forall r :: r in labelMapping ==> '\n' !in labelMapping[r]
    ensures var out := Process(contours, img, conversionFactor, labelMapping, maxRegions, gridSize, numColumns, formatArea).value;
      && out.text == ReportText(out.regions, formatArea)
      && forall i :: 0 <= i < |out.regions| ==> '\n' !in out.regions[i].tag
  {
    var out := Process(contours, img, conversionFactor, labelMapping, maxRegions, gridSize, numColumns, formatArea).value;
    ProcessOutcome(contours, img, conversionFactor, labelMapping, maxRegions, gridSize, numColumns, formatArea);
    forall i | 0 <= i < |out.regions|
      ensures '\n' !in out.regions[i].tag
    {
      assert out.regions[i].tag == labelMapping[i + 1];
    }
  }

  /**
   * The report has one line per region, `<tag>: <area> cm²`, so the CSV
   * export writes one row per region; with no region the text is empty and
   * the export writes a single empty row.  Tags and rendered areas are
   * assumed free of newlines.
   */
  lemma ProcessReportRows(contours: seq<Contour>, img: Image, conversionFactor: real, labelMapping: map<int, string>,
                          maxRegions: int, gridSize: int, numColumns: int, formatArea: real -> string,
                          rows: seq<seq<string>>)
    requires Process(contours, img, conversionFactor, labelMapping, maxRegions, gridSize, numColumns, formatArea).Ok?
    requires forall r :: r in labelMapping ==> '\n' !in labelMapping[r]
    requires forall a :: '\n' !in formatArea(a)
    requires Utils.IsRowsOf(rows, Process(contours, img, conversionFactor, labelMapping, maxRegions, gridSize, numColumns, formatArea).value.text)
    ensures var rs := Process(contours, img, conversionFactor, labelMapping, maxRegions, gridSize, numColumns, formatArea).value.regions;
      |rs| >= 1 ==> |rows| == |rs| && forall i :: 0 <= i < |rs| ==> rows[i] == [ReportLine(rs[i], formatArea)]
    ensures var rs := Process(contours, img, conversionFactor, labelMapping, maxRegions, gridSize, numColumns, formatArea).value.regions;
      |rs| == 0 ==> rows == [[""]]
  {
    var out := Process(contours, img, conversionFactor, labelMapping, maxRegions, gridSize, numColumns, formatArea).value;
    ProcessTags(contours, img, conversionFactor, labelMapping, maxRegions, gridSize, numColumns, formatArea);
    var rs := out.regions;
    if |rs| >= 1 {
      ReportOneLinePerRegion(rs, formatArea);
    } else {
      assert out.text == "";
      assert Utils.Split("", '\n') == [""];
    }
  }

  /**
   * The export button hands `export_to_csv` the text of the display widget,
   * which Tk ends with a newline: the CSV then holds one row per region and
   * one empty last row.
   */
  lemma ProcessWidgetRows(contours: seq<Contour>, img: Image, conversionFactor: real, labelMapping: map<int, string>,
                          maxRegions: int, gridSize: int, numColumns: int, formatArea: real -> string,
                          rows: seq<seq<string>>)
    requires Process(contours, img, conversionFactor, labelMapping, maxRegions, gridSize, numColumns, formatArea).Ok?
    requires forall r :: r in labelMapping ==> '\n' !in labelMapping[r]
    requires forall a :: '\n' !in formatArea(a)
    requires Utils.IsRowsOf(rows, Process(contours, img, conversionFactor, labelMapping, maxRegions, gridSize, numColumns, formatArea).value.text + "\n")
    ensures var rs := Process(contours, img, conversionFactor, labelMapping, maxRegions, gridSize, numColumns, formatArea).value.regions;
      |rs| >= 1 ==>
        (&& |rows| == |rs| + 1
         && (forall i :: 0 <= i < |rs| ==> rows[i] == [ReportLine(rs[i], formatArea)])
         && rows[|rs|] == [""])
    ensures var rs := Process(contours, img, conversionFactor, labelMapping, maxRegions, gridSize, numColumns, formatArea).value.regions;
      |rs| == 0 ==> rows == [[""], [""]]
  {
    var out := Process(contours, img, conversionFactor, labelMapping, maxRegions, gridSize, numColumns, formatArea).value;
    ProcessTags(contours, img, conversionFactor, labelMapping, maxRegions, gridSize, numColumns, formatArea);
    var rs := out.regions;
    Utils.SplitTrailingSeparator(out.text, '\n');
    if |rs| >= 1 {
      ReportOneLinePerRegion(rs, formatArea);
    } else {
      assert out.text == "";
      assert Utils.Split("", '\n') == [""];
    }
  }
}
