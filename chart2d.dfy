/** The data side of the 2D chart: which rows are plotted, their labels, the pie's per-label
    counts, and which of the four chart kinds (or which message) is rendered. Chart.js
    options, gradients and number formatting are not modelled: `number(s)` stands for
    `formatNumber(Number(s) || 0)` and `point(s)` for a finite `Number(s)`, formatted. */
module Chart2D {
  import opened Common
  import opened Records
  import opened JsObject
  import Chart3D

  const SelectFileAndAxes := "Select valid file and axes"
  const SelectYAxis := "Select Y axis for this chart type"
  const Unsupported := "Unsupported 2D chart type"

  /** The rows filter: the x value must be defined and non-empty; a pie needs nothing more,
      any other chart also needs a chosen y axis whose value is defined and non-empty. */
  predicate Plotted(r: Row, xAxis: string, yAxis: Option<string>, chartType: string) {
    && xAxis in r && r[xAxis] != ""
    && (chartType == "pie" || (Truthy(yAxis) && yAxis.value in r && r[yAxis.value] != ""))
  }

  function PlottedRows(data: seq<Row>, xAxis: string, yAxis: Option<string>, chartType: string): (rows: seq<Row>)
    ensures forall i :: 0 <= i < |rows| ==> xAxis in rows[i]
  {
    Filter(data, (r: Row) => Plotted(r, xAxis, yAxis, chartType))
  }

  /** `rows.map((r) => r[xAxis])`. */
  function Labels(rows: seq<Row>, xAxis: string): (labels: seq<string>)
    requires forall i :: 0 <= i < |rows| ==> xAxis in rows[i]
    ensures |labels| == |rows|
    ensures forall i :: 0 <= i < |rows| ==> labels[i] == rows[i][xAxis]
  {
    seq(|rows|, i requires 0 <= i < |rows| => rows[i][xAxis])
  }

  /** One count of 1 per label, as the pie's `forEach` adds them. */
  function Ones(labels: seq<string>): (e: seq<(string, int)>)
    ensures |e| == |labels|
    ensures forall i :: 0 <= i < |labels| ==> e[i] == (labels[i], 1)
  {
    seq(|labels|, i requires 0 <= i < |labels| => (labels[i], 1))
  }

  /** The pie's `counts[l] = (counts[l] || 0) + 1` loop. */
  method CountLabels(labels: seq<string>) returns (counts: Obj)
    ensures counts == Tally(Ones(labels))
  {
    counts := Empty;
    var i := 0;
    while i < |labels|
      invariant 0 <= i <= |labels|
      invariant counts == Tally(Ones(labels)[..i])
    {
      assert Ones(labels)[..i + 1][..i] == Ones(labels)[..i];
      counts := Bump(counts, labels[i], 1);
      i := i + 1;
    }
    assert Ones(labels)[..i] == Ones(labels);
  }

  type Point = (int, int)

  /** Scatter points: rows whose x and y both read as finite numbers. */
  function ScatterPoints(rows: seq<Row>, xAxis: string, yAxis: string, point: string -> Option<int>): (ps: seq<Point>)
    ensures |ps| <= |rows|
  {
    if rows == [] then []
    else
      var r := rows[|rows| - 1];
      var x := if xAxis in r then point(r[xAxis]) else None;
      var y := if yAxis in r then point(r[yAxis]) else None;
      ScatterPoints(rows[..|rows| - 1], xAxis, yAxis, point) + (if x.Some? && y.Some? then [(x.value, y.value)] else [])
  }

  /** What the component renders. */
  datatype View =
    | Notice(text: string)
    | Pie(labels: seq<string>, values: seq<int>, colors: seq<Chart3D.Hsl>)
    | Scatter(seriesLabel: string, points: seq<Point>)
    | Series(kind: string, seriesLabel: string, labels: seq<string>, values: seq<int>)

  predicate IsSupported(chartType: string) {
    chartType == "bar" || chartType == "line" || chartType == "pie" || chartType == "scatter"
  }

  /** The pie's slices without a y axis: `Object.keys(counts)` and their counts. */
  function PieSlices(counts: Obj): (view: View)
    requires Valid(counts)
    ensures view.Pie? && view.labels == ObjectKeys(counts.order)
    ensures |view.values| == |view.labels| == |view.colors|
    ensures forall i :: 0 <= i < |view.labels| ==> view.labels[i] in counts.vals && view.values[i] == counts.vals[view.labels[i]]
  {
    var keys := ObjectKeys(counts.order);
    ObjectKeysPresent(counts);
    Pie(keys, seq(|keys|, i requires 0 <= i < |keys| => counts.vals[keys[i]]), Chart3D.GenerateColors(|keys|))
  }

  /** The component body. */
  method Render(upload: Option<seq<Row>>, xAxis: Option<string>, yAxis: Option<string>, chartType: string,
                number: string -> int, point: string -> Option<int>) returns (view: View)
    ensures upload.None? || !Truthy(xAxis) ==> view == Notice(SelectFileAndAxes)
    ensures upload.Some? && Truthy(xAxis) ==>
              var rows := PlottedRows(upload.value, xAxis.value, yAxis, chartType);
              var labels := Labels(rows, xAxis.value);
              && (chartType == "pie" && !Truthy(yAxis) ==> view == PieSlices(Tally(Ones(labels))))
              && (chartType == "pie" && Truthy(yAxis) ==>
                    view == Pie(labels, seq(|rows|, i requires 0 <= i < |rows| => Chart3D.Amount(rows[i], yAxis, number)),
                                Chart3D.GenerateColors(|labels|)))
              && (chartType == "scatter" ==>
                    view == Scatter(if Truthy(yAxis) then yAxis.value else "values",
                                    ScatterPoints(rows, xAxis.value, JsText(yAxis), point)))
              && (chartType != "pie" && chartType != "scatter" && !Truthy(yAxis) ==> view == Notice(SelectYAxis))
              && ((chartType == "bar" || chartType == "line") && Truthy(yAxis) ==>
                    view == Series(chartType, yAxis.value, labels,
                                   seq(|rows|, i requires 0 <= i < |rows| => Chart3D.Amount(rows[i], yAxis, number))))
              && (!IsSupported(chartType) && Truthy(yAxis) ==> view == Notice(Unsupported))
  {
    if upload.None? || !Truthy(xAxis) {
      return Notice(SelectFileAndAxes);
    }
    var x := xAxis.value;
    var rows := PlottedRows(upload.value, x, yAxis, chartType);
    var labels := Labels(rows, x);
    var values := seq(|rows|, i requires 0 <= i < |rows| => Chart3D.Amount(rows[i], yAxis, number));
    if chartType == "pie" {
      if !Truthy(yAxis) {
        var counts := CountLabels(labels);
        view := PieSlices(counts);
      } else {
        view := Pie(labels, values, Chart3D.GenerateColors(|labels|));
      }
    } else if chartType == "scatter" {
      view := Scatter(if Truthy(yAxis) then yAxis.value else "values", ScatterPoints(rows, x, JsText(yAxis), point));
    } else {
      if !Truthy(yAxis) {
        return Notice(SelectYAxis);
      }
      if chartType == "bar" || chartType == "line" {
        view := Series(chartType, yAxis.value, labels, values);
      } else {
        view := Notice(Unsupported);
      }
    }
  }

  /** A row is plotted iff it passes the filter, and the plotted rows keep their order. */
  lemma PlottedRowsExact(data: seq<Row>, xAxis: string, yAxis: Option<string>, chartType: string)
    ensures forall r :: r in PlottedRows(data, xAxis, yAxis, chartType) <==> r in data && Plotted(r, xAxis, yAxis, chartType)
    ensures IsSubseq(PlottedRows(data, xAxis, yAxis, chartType), data)
  {
    FilterIsSubseq(data, (r: Row) => Plotted(r, xAxis, yAxis, chartType));
  }

  /** A chart other than a pie with no y axis plots no rows at all. */
  lemma NoYAxisNoRows(data: seq<Row>, xAxis: string, chartType: string)
    requires chartType != "pie"
    ensures PlottedRows(data, xAxis, None, chartType) == []
    ensures PlottedRows(data, xAxis, Some(""), chartType) == []
  {
    FilterNoneKept(data, (r: Row) => Plotted(r, xAxis, None, chartType));
    FilterNoneKept(data, (r: Row) => Plotted(r, xAxis, Some(""), chartType));
  }

  /** The count under a label is the number of times it occurs. */
  lemma {:induction false} OnesAmount(labels: seq<string>, k: string)
    ensures AmountFor(Ones(labels), k) == multiset(labels)[k]
  {
    if labels != [] {
      var prefix := labels[..|labels| - 1];
      assert Ones(labels)[..|labels| - 1] == Ones(prefix);
      OnesAmount(prefix, k);
      assert labels == prefix + [labels[|labels| - 1]];
    }
  }

  lemma {:induction false} OnesTotal(labels: seq<string>)
    ensures TotalAmount(Ones(labels)) == |labels|
  {
    if labels != [] {
      var prefix := labels[..|labels| - 1];
      assert Ones(labels)[..|labels| - 1] == Ones(prefix);
      OnesTotal(prefix);
    }
  }

  /** A pie without a y axis has one slice per distinct label, sized by the label's number of
      occurrences, and the slices add up to the number of plotted rows. */
  lemma PieCounts(labels: seq<string>)
    ensures forall k :: k in Tally(Ones(labels)).vals <==> k in labels
    ensures forall k :: k in Tally(Ones(labels)).vals ==> Tally(Ones(labels)).vals[k] == multiset(labels)[k]
    ensures forall j :: 0 <= j < |ObjectKeys(Tally(Ones(labels)).order)| ==>
              ObjectKeys(Tally(Ones(labels)).order)[j] in Tally(Ones(labels)).vals
    ensures SumOver(ObjectKeys(Tally(Ones(labels)).order), Tally(Ones(labels)).vals) == |labels|
  {
    var entries := Ones(labels);
    TallyValues(entries);
    forall k ensures k in Tally(entries).vals <==> k in labels {
      if k in labels {
        var i :| 0 <= i < |labels| && labels[i] == k;
        assert entries[i].0 == k;
      }
      if k in Tally(entries).vals {
        var i :| 0 <= i < |entries| && entries[i].0 == k;
        assert labels[i] == k;
      }
    }
    forall k | k in Tally(entries).vals ensures Tally(entries).vals[k] == multiset(labels)[k] {
      OnesAmount(labels, k);
    }
    ObjectKeysSum(entries);
    OnesTotal(labels);
  }

  /** Every plotted row has a label, and none of the labels is empty. */
  lemma LabelsNonEmpty(data: seq<Row>, xAxis: string, yAxis: Option<string>, chartType: string)
    ensures
      var rows := PlottedRows(data, xAxis, yAxis, chartType);
      |Labels(rows, xAxis)| == |rows| && forall i :: 0 <= i < |rows| ==> Labels(rows, xAxis)[i] != ""
  {
    var rows := PlottedRows(data, xAxis, yAxis, chartType);
    forall i | 0 <= i < |rows| ensures Labels(rows, xAxis)[i] != "" {
      assert Plotted(rows[i], xAxis, yAxis, chartType);
    }
  }
}
