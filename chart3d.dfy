/** The data side of the 3D chart: axis labels shortened to acronyms, one hue per group, and
    the rows of the chosen upload grouped by their x value (summing the y values, or counting
    rows when no y axis is chosen). The Three.js scene built from the groups is not modelled. */
module Chart3D {
  import opened Common
  import opened Records
  import opened JsObject

  // ---------------------------------------------------------------------------
  // abbreviateText

  /** `String.prototype.toUpperCase` on one character, for the ASCII letters. */
  function Upper(c: char): (u: char)
    ensures 'a' <= c <= 'z' ==> u as int == c as int - 32
    ensures !('a' <= c <= 'z') ==> u == c
  {
    if 'a' <= c <= 'z' then (c as int - 32) as char else c
  }

  /** The index of the first white-space character, or `|s|` when there is none. */
  function FirstSpace(s: string): (i: nat)
    ensures i <= |s|
    ensures i < |s| ==> IsWhitespace(s[i])
    ensures forall k :: 0 <= k < i ==> !IsWhitespace(s[k])
  {
    if s == [] || IsWhitespace(s[0]) then 0 else FirstSpace(s[1..]) + 1
  }

  /** `s.split(/\s+/)`: the pieces between runs of white space. */
  function SplitSpaces(s: string): (words: seq<string>)
    ensures |words| >= 1
    decreases |s|
  {
    var i := FirstSpace(s);
    if i == |s| then [s]
    else
      var rest := TrimStart(s[i..]);
      assert |rest| < |s| by {
        if |rest| == |s[i..]| {
          assert rest == s[i..];
        }
      }
      [s[..i]] + SplitSpaces(rest)
  }

  predicate NoSpace(w: string) {
    forall k :: 0 <= k < |w| ==> !IsWhitespace(w[k])
  }

  /** Splitting a trimmed, non-empty string gives non-empty words free of white space. */
  lemma {:induction false} SplitTrimmed(s: string)
    requires s != [] && !IsWhitespace(s[0]) && !IsWhitespace(s[|s| - 1])
    ensures forall j :: 0 <= j < |SplitSpaces(s)| ==> SplitSpaces(s)[j] != [] && NoSpace(SplitSpaces(s)[j])
    decreases |s|
  {
    var i := FirstSpace(s);
    if i < |s| {
      var rest := TrimStart(s[i..]);
      assert rest != [];
      assert rest[|rest| - 1] == s[|s| - 1];
      SplitTrimmed(rest);
    }
  }

  /** The upper-cased first letters of the words, joined. */
  function Initials(words: seq<string>): (r: string)
    requires forall j :: 0 <= j < |words| ==> words[j] != []
    ensures |r| == |words|
    ensures forall j :: 0 <= j < |words| ==> r[j] == Upper(words[j][0])
  {
    if words == [] then [] else [Upper(words[0][0])] + Initials(words[1..])
  }

  /** `abbreviateText(text)`. */
  function Abbreviate(text: Option<string>): (r: Option<string>)
    // Falsy or shorter than three characters: returned as given.
    ensures !Truthy(text) || |text.value| < 3 ==> r == text
    // A single short word once trimmed: returned as given, untrimmed.
    ensures (Truthy(text) && |text.value| >= 3 && |SplitSpaces(Trim(text.value))| == 1
             && |SplitSpaces(Trim(text.value))[0]| < 3) ==> r == text
    // Otherwise one upper-cased initial per word of the trimmed text.
    ensures (Truthy(text) && |text.value| >= 3
             && !(|SplitSpaces(Trim(text.value))| == 1 && |SplitSpaces(Trim(text.value))[0]| < 3)) ==>
              var words := SplitSpaces(Trim(text.value));
              && r.Some? && |r.value| == |words|
              && forall j :: 0 <= j < |words| ==> words[j] != [] && NoSpace(words[j]) && r.value[j] == Upper(words[j][0])
  {
    if !Truthy(text) || |text.value| < 3 then text
    else
      var words := SplitSpaces(Trim(text.value));
      if |words| == 1 && |words[0]| < 3 then text
      else
        assert Trim(text.value) != [];
        SplitTrimmed(Trim(text.value));
        Some(Initials(words))
  }

  /** A word followed by `t`: the first white space is the first one in `t`. */
  lemma {:induction false} FirstSpaceAfterWord(w: string, t: string)
    requires FirstSpace(w) == |w|
    ensures FirstSpace(w + t) == |w| + FirstSpace(t)
  {
    if w != [] {
      assert (w + t)[0] == w[0];
      assert (w + t)[1..] == w[1..] + t;
      FirstSpaceAfterWord(w[1..], t);
    } else {
      assert w + t == t;
    }
  }

  /** A word, one space, and a remainder that starts with a word: the word is split off. */
  lemma SplitFirstWord(w: string, rest: string)
    requires FirstSpace(w) == |w| && rest != [] && !IsWhitespace(rest[0])
    ensures SplitSpaces(w + " " + rest) == [w] + SplitSpaces(rest)
  {
    var s := w + " " + rest;
    assert s == w + (" " + rest);
    FirstSpaceAfterWord(w, " " + rest);
    var i := FirstSpace(s);
    assert i == |w|;
    assert s[i..] == [' '] + rest;
    assert TrimStart(s[i..]) == rest by {
      assert ([' '] + rest)[1..] == rest;
      assert TrimStart(rest) == rest;
    }
    assert s[..i] == w;
  }

  /** Two letters are too short to abbreviate. */
  lemma AbbreviateShort(text: string)
    requires |text| < 3
    ensures Abbreviate(Some(text)) == Some(text)
  {
  }

  /** Two words joined by one space become their two upper-cased initials ("total sales"
      becomes "TS"). */
  lemma AbbreviateTwoWords(w1: string, w2: string)
    requires w1 != [] && w2 != [] && NoSpace(w1) && NoSpace(w2)
    ensures Abbreviate(Some(w1 + " " + w2)) == Some([Upper(w1[0]), Upper(w2[0])])
  {
    var s := w1 + " " + w2;
    TrimOfTrimmed(s);
    WordHasNoSpace(w1);
    WordHasNoSpace(w2);
    SplitFirstWord(w1, w2);
    var words := SplitSpaces(Trim(s));
    assert words == [w1] + [w2];
    var r := Abbreviate(Some(s));
    assert r.Some? && |r.value| == 2;
    assert r.value[0] == Upper(words[0][0]) && r.value[1] == Upper(words[1][0]);
    assert words[0] == w1 && words[1] == w2;
    assert r.value == [Upper(w1[0]), Upper(w2[0])];
  }

  /** Text that neither starts nor ends with white space is its own trim. */
  lemma TrimOfTrimmed(s: string)
    requires s != [] && !IsWhitespace(s[0]) && !IsWhitespace(s[|s| - 1])
    ensures Trim(s) == s
  {
    assert TrimFrom(s) == 0;
    assert TrimTo(s) == |s|;
  }

  /** A word without white space is not split. */
  lemma WordHasNoSpace(w: string)
    requires NoSpace(w)
    ensures FirstSpace(w) == |w|
    ensures SplitSpaces(w) == [w]
  {
  }

  // ---------------------------------------------------------------------------
  // generateColors

  /** `hsl(${(i * 360) / num}, 70%, 50%)`, with the hue kept as the exact fraction
      `hueNumerator / hueDenominator`. */
  datatype Hsl = Hsl(hueNumerator: nat, hueDenominator: nat, saturation: nat, lightness: nat)

  function GenerateColors(num: nat): (colors: seq<Hsl>)
    ensures |colors| == num
    ensures forall i :: 0 <= i < num ==> colors[i] == Hsl(i * 360, num, 70, 50)
  {
    seq(num, i requires 0 <= i < num => Hsl(i * 360, num, 70, 50))
  }

  /** Every group gets its own hue, and the hues stay within one turn of the colour wheel. */
  lemma ColorsDistinct(num: nat, i: nat, j: nat)
    requires i < j < num
    ensures GenerateColors(num)[i] != GenerateColors(num)[j]
    ensures GenerateColors(num)[j].hueNumerator < 360 * GenerateColors(num)[j].hueDenominator
  {
  }

  // ---------------------------------------------------------------------------
  // The groups

  /** Rows whose x value is defined and non-empty. */
  function KeptRows(data: seq<Row>, xAxis: string): seq<Row> {
    Filter(data, (r: Row) => xAxis in r && r[xAxis] != "")
  }

  /** What one row adds to its group: `Number(r[yAxis]) || 0` with a y axis (an absent value
      is NaN, so 0), else 1. `number(s)` stands for `Number(s) || 0`. */
  function Amount(r: Row, yAxis: Option<string>, number: string -> int): (v: int)
    ensures !Truthy(yAxis) ==> v == 1
    ensures Truthy(yAxis) && yAxis.value !in r ==> v == 0
  {
    if !Truthy(yAxis) then 1
    else if yAxis.value in r then number(r[yAxis.value])
    else 0
  }

  /** The (group key, amount) pairs the `forEach` visits. */
  function Entries(rows: seq<Row>, xAxis: string, yAxis: Option<string>, number: string -> int): (e: seq<(string, int)>)
    requires forall i :: 0 <= i < |rows| ==> xAxis in rows[i]
  {
    seq(|rows|, i requires 0 <= i < |rows| => (rows[i][xAxis], Amount(rows[i], yAxis, number)))
  }

  /** The grouping loop: `groups[key] = (groups[key] || 0) + val` for every kept row. */
  method Groups(rows: seq<Row>, xAxis: string, yAxis: Option<string>, number: string -> int) returns (groups: Obj)
    requires forall i :: 0 <= i < |rows| ==> xAxis in rows[i]
    ensures groups == Tally(Entries(rows, xAxis, yAxis, number))
  {
    ghost var entries := Entries(rows, xAxis, yAxis, number);
    groups := Empty;
    var i := 0;
    while i < |rows|
      invariant 0 <= i <= |rows|
      invariant groups == Tally(entries[..i])
    {
      assert entries[..i + 1][..i] == entries[..i];
      groups := Bump(groups, rows[i][xAxis], Amount(rows[i], yAxis, number));
      i := i + 1;
    }
    assert entries[..i] == entries;
  }

  /** What the scene is built from: `labels`, `values` and `colors`. */
  datatype ChartData = ChartData(labels: seq<string>, values: seq<int>, colors: seq<Hsl>)

  /** The effect body, up to the scene: nothing without an upload or an x axis. */
  method Chart(upload: Option<seq<Row>>, xAxis: Option<string>, yAxis: Option<string>, number: string -> int)
    returns (chart: Option<ChartData>)
    ensures upload.None? || !Truthy(xAxis) <==> chart.None?
    ensures chart.Some? ==>
              var rows := KeptRows(upload.value, xAxis.value);
              var groups := Tally(Entries(rows, xAxis.value, yAxis, number));
              && chart.value.labels == ObjectKeys(groups.order)
              && |chart.value.values| == |chart.value.labels| == |chart.value.colors|
              && (forall i :: 0 <= i < |chart.value.labels| ==>
                    chart.value.labels[i] in groups.vals && chart.value.values[i] == groups.vals[chart.value.labels[i]])
              && chart.value.colors == GenerateColors(|chart.value.labels|)
  {
    if upload.None? || !Truthy(xAxis) {
      return None;
    }
    var rows := KeptRows(upload.value, xAxis.value);
    var groups := Groups(rows, xAxis.value, yAxis, number);
    var labels := ObjectKeys(groups.order);
    ObjectKeysPresent(groups);
    var values := seq(|labels|, i requires 0 <= i < |labels| => groups.vals[labels[i]]);
    chart := Some(ChartData(labels, values, GenerateColors(|labels|)));
  }

  /** A row is grouped iff its x value is defined and non-empty. */
  lemma KeptRowsExact(data: seq<Row>, xAxis: string)
    ensures forall r :: r in KeptRows(data, xAxis) <==> r in data && xAxis in r && r[xAxis] != ""
    ensures IsSubseq(KeptRows(data, xAxis), data)
  {
    FilterIsSubseq(data, (r: Row) => xAxis in r && r[xAxis] != "");
  }

  lemma {:induction false} TotalAmountOfCounts(entries: seq<(string, int)>)
    requires forall i :: 0 <= i < |entries| ==> entries[i].1 == 1
    ensures TotalAmount(entries) == |entries|
  {
    if entries != [] {
      TotalAmountOfCounts(entries[..|entries| - 1]);
    }
  }

  /** The groups are exactly the distinct x values of the grouped rows, with or without a y axis. */
  lemma GroupKeysAreXValues(rows: seq<Row>, xAxis: string, yAxis: Option<string>, number: string -> int)
    requires forall i :: 0 <= i < |rows| ==> xAxis in rows[i]
    ensures forall k :: k in Tally(Entries(rows, xAxis, yAxis, number)).vals <==>
              exists i :: 0 <= i < |rows| && rows[i][xAxis] == k
  {
    var entries := Entries(rows, xAxis, yAxis, number);
    TallyValues(entries);
    forall k ensures k in Tally(entries).vals <==> exists i :: 0 <= i < |rows| && rows[i][xAxis] == k {
      if exists i :: 0 <= i < |rows| && rows[i][xAxis] == k {
        var i :| 0 <= i < |rows| && rows[i][xAxis] == k;
        assert entries[i].0 == k;
      }
      if k in Tally(entries).vals {
        var i :| 0 <= i < |entries| && entries[i].0 == k;
        assert rows[i][xAxis] == k;
      }
    }
  }

  /** Without a y axis the counts listed under the labels add up to the number of grouped rows. */
  lemma CountsWithoutY(rows: seq<Row>, xAxis: string, number: string -> int)
    requires forall i :: 0 <= i < |rows| ==> xAxis in rows[i]
    ensures forall i :: 0 <= i < |ObjectKeys(Tally(Entries(rows, xAxis, None, number)).order)| ==>
              ObjectKeys(Tally(Entries(rows, xAxis, None, number)).order)[i] in Tally(Entries(rows, xAxis, None, number)).vals
    ensures SumOver(ObjectKeys(Tally(Entries(rows, xAxis, None, number)).order),
                    Tally(Entries(rows, xAxis, None, number)).vals) == |rows|
  {
    var entries := Entries(rows, xAxis, None, number);
    ObjectKeysSum(entries);
    TotalAmountOfCounts(entries);
  }
}
