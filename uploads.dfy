/** The upload routes: spreadsheet ingestion (the header row becomes the list of keys, every
    later row one record), the owner-scoped listing, and the owner-checked delete. Workbook
    loading is not modelled: the first worksheet arrives as the rows and cells that ExcelJS's
    `eachRow` and `eachCell` visit (those that hold a value), in order. */
module Uploads {
  import opened Common
  import opened Records
  import JsObject

  /** A cell with a value, at 1-based column `col`, with its displayed text. */
  datatype Cell = Cell(col: nat, text: string)

  /** A row with at least one value, at 1-based row number `number`. */
  datatype SheetRow = SheetRow(number: nat, cells: seq<Cell>)

  /** The first worksheet as a sparse grid: the visited rows in ascending row order. */
  type Worksheet = seq<SheetRow>

  /** `headers[colNumber - 1]` used as a property name: outside the list it is `undefined`,
      which becomes the key "undefined". */
  function HeaderKey(headers: seq<string>, col: nat): (k: string)
    ensures 1 <= col <= |headers| ==> k == headers[col - 1]
    ensures col == 0 || col > |headers| ==> k == "undefined"
  {
    if 1 <= col <= |headers| then headers[col - 1] else "undefined"
  }

  /** The cells of `worksheet.getRow(1)`: none when row 1 holds no value. */
  function HeaderCells(ws: Worksheet): seq<Cell> {
    if ws == [] then []
    else if ws[0].number == 1 then ws[0].cells
    else HeaderCells(ws[1..])
  }

  /** The trimmed texts of the given cells, in visiting order. */
  function TrimmedTexts(cells: seq<Cell>): (r: seq<string>)
    ensures |r| == |cells|
    ensures forall i :: 0 <= i < |cells| ==> r[i] == Trim(cells[i].text)
  {
    if cells == [] then [] else TrimmedTexts(cells[..|cells| - 1]) + [Trim(cells[|cells| - 1].text)]
  }

  /** `rowData[k] = v` on a plain object: a new key goes to the end of the key order, an
      existing key keeps its place and takes the new value. */
  function SetField(o: RowObject, k: string, v: string): (r: RowObject)
    ensures r.fields == o.fields[k := v]
    ensures k in o.fields ==> r.order == o.order
    ensures k !in o.fields ==> r.order == o.order + [k]
  {
    RowObject(o.fields[k := v], if k in o.fields then o.order else o.order + [k])
  }

  /** The object `eachCell` builds for one row: `rowData[headers[col - 1]] = cell.text` per
      cell. Its key order lists every key once, and exactly the keys it has. */
  function RowRecord(headers: seq<string>, cells: seq<Cell>): (o: RowObject)
    ensures forall k :: k in o.fields <==> k in o.order
    ensures forall i, j :: 0 <= i < j < |o.order| ==> o.order[i] != o.order[j]
  {
    if cells == [] then RowObject(map[], [])
    else
      var last := cells[|cells| - 1];
      SetField(RowRecord(headers, cells[..|cells| - 1]), HeaderKey(headers, last.col), last.text)
  }

  /** The records `eachRow` pushes: one per visited row other than row 1, in row order. */
  function ParsedRecords(ws: Worksheet, headers: seq<string>): seq<RowObject> {
    if ws == [] then []
    else
      var last := ws[|ws| - 1];
      ParsedRecords(ws[..|ws| - 1], headers) + (if last.number == 1 then [] else [RowRecord(headers, last.cells)])
  }

  /** The visited rows other than row 1, in row order. */
  function DataRows(ws: Worksheet): (rows: seq<SheetRow>)
    ensures forall i :: 0 <= i < |rows| ==> rows[i].number != 1 && rows[i] in ws
    ensures forall i :: 0 <= i < |ws| && ws[i].number != 1 ==> ws[i] in rows
    ensures IsSubseq(rows, ws)
  {
    if ws == [] then []
    else
      var last := ws[|ws| - 1];
      var init := ws[..|ws| - 1];
      var rest := DataRows(init);
      assert init + [last] == ws;
      SubseqSnoc(rest, init, last);
      if last.number == 1 then
        assert rest + [] == rest;
        rest + []
      else
        rest + [last]
  }

  /** The header pass: `getRow(1).eachCell` pushing each trimmed text. */
  method ParseHeaders(ws: Worksheet) returns (headers: seq<string>)
    ensures headers == TrimmedTexts(HeaderCells(ws))
  {
    var headerCells := HeaderCells(ws);
    headers := [];
    var c := 0;
    while c < |headerCells|
      invariant 0 <= c <= |headerCells|
      invariant headers == TrimmedTexts(headerCells[..c])
    {
      assert headerCells[..c + 1][..c] == headerCells[..c];
      headers := headers + [Trim(headerCells[c].text)];
      c := c + 1;
    }
    assert headerCells[..c] == headerCells;
  }

  /** One row's `eachCell`: `rowData[headers[colNumber - 1]] = cell.text`. */
  method ParseRow(headers: seq<string>, cells: seq<Cell>) returns (rowData: RowObject)
    ensures rowData == RowRecord(headers, cells)
  {
    rowData := RowObject(map[], []);
    var j := 0;
    while j < |cells|
      invariant 0 <= j <= |cells|
      invariant rowData == RowRecord(headers, cells[..j])
    {
      assert cells[..j + 1][..j] == cells[..j];
      rowData := SetField(rowData, HeaderKey(headers, cells[j].col), cells[j].text);
      j := j + 1;
    }
    assert cells[..j] == cells;
  }

  /** The parsing part of POST `/`: collect the trimmed header texts, then one record per
      data row. */
  method ParseWorksheet(ws: Worksheet) returns (headers: seq<string>, rows: seq<RowObject>)
    ensures headers == TrimmedTexts(HeaderCells(ws))
    ensures rows == ParsedRecords(ws, headers)
  {
    headers := ParseHeaders(ws);
    rows := [];
    var i := 0;
    while i < |ws|
      invariant 0 <= i <= |ws|
      invariant rows == ParsedRecords(ws[..i], headers)
    {
      assert ws[..i + 1][..i] == ws[..i];
      if ws[i].number != 1 {
        var rowData := ParseRow(headers, ws[i].cells);
        rows := rows + [rowData];
      }
      i := i + 1;
    }
    assert ws[..i] == ws;
  }

  /** One record per given row, built from that row's cells, in the same order. */
  function RecordsOf(rows: seq<SheetRow>, headers: seq<string>): (records: seq<RowObject>)
    ensures |records| == |rows|
    ensures forall i :: 0 <= i < |rows| ==> records[i] == RowRecord(headers, rows[i].cells)
  {
    if rows == [] then [] else RecordsOf(rows[..|rows| - 1], headers) + [RowRecord(headers, rows[|rows| - 1].cells)]
  }

  /** Exactly one record per visited row after row 1, in row order; row 1 never becomes one. */
  lemma {:induction false} RecordsPerDataRow(ws: Worksheet, headers: seq<string>)
    ensures ParsedRecords(ws, headers) == RecordsOf(DataRows(ws), headers)
  {
    if ws != [] {
      var prefix := ws[..|ws| - 1];
      var last := ws[|ws| - 1];
      RecordsPerDataRow(prefix, headers);
      if last.number != 1 {
        var rows := DataRows(prefix) + [last];
        assert rows[..|rows| - 1] == DataRows(prefix);
      }
    }
  }

  /** A row's record has a key iff some cell of the row maps to it. */
  lemma {:induction false} RowRecordKeys(headers: seq<string>, cells: seq<Cell>, k: string)
    ensures k in RowRecord(headers, cells).fields <==> exists j :: 0 <= j < |cells| && HeaderKey(headers, cells[j].col) == k
  {
    if cells != [] {
      var prefix := cells[..|cells| - 1];
      RowRecordKeys(headers, prefix, k);
      if exists j :: 0 <= j < |prefix| && HeaderKey(headers, prefix[j].col) == k {
        var j :| 0 <= j < |prefix| && HeaderKey(headers, prefix[j].col) == k;
        assert cells[j] == prefix[j];
      }
      if exists j :: 0 <= j < |cells| && HeaderKey(headers, cells[j].col) == k {
        var j :| 0 <= j < |cells| && HeaderKey(headers, cells[j].col) == k;
        if j < |prefix| {
          assert prefix[j] == cells[j];
        }
      }
    }
  }

  /** Last write wins: a key carries the text of the LAST cell that maps to it, so a repeated
      header name keeps the later column's text. */
  lemma {:induction false} RowRecordLastWins(headers: seq<string>, cells: seq<Cell>, j: nat)
    requires j < |cells|
    requires forall j' :: j < j' < |cells| ==> HeaderKey(headers, cells[j'].col) != HeaderKey(headers, cells[j].col)
    ensures HeaderKey(headers, cells[j].col) in RowRecord(headers, cells).fields
    ensures RowRecord(headers, cells).fields[HeaderKey(headers, cells[j].col)] == cells[j].text
  {
    if j < |cells| - 1 {
      var prefix := cells[..|cells| - 1];
      assert prefix[j] == cells[j];
      RowRecordLastWins(headers, prefix, j);
    }
  }

  /** Two columns under the same header: the record keeps the second one's text. */
  lemma DuplicateHeaderExample()
    ensures RowRecord(["Name", "Name"], [Cell(1, "Ann"), Cell(2, "Bob")]) == RowObject(map["Name" := "Bob"], ["Name"])
  {
    var cells := [Cell(1, "Ann"), Cell(2, "Bob")];
    assert cells[..1] == [Cell(1, "Ann")];
    assert cells[..1][..0] == [];
  }

  /** There is no bound check: a cell right of the last header is stored under "undefined". */
  lemma {:induction false} CellBeyondHeaders(headers: seq<string>, cells: seq<Cell>, j: nat)
    requires j < |cells| && cells[j].col > |headers|
    requires forall j' :: j < j' < |cells| ==> HeaderKey(headers, cells[j'].col) != "undefined"
    ensures "undefined" in RowRecord(headers, cells).fields
    ensures RowRecord(headers, cells).fields["undefined"] == cells[j].text
  {
    RowRecordLastWins(headers, cells, j);
  }

  /** A row with a value in each of the two header columns becomes the record mapping the
      first header to the first text and the second header to the second (the second wins
      when both headers are the same name). */
  lemma TwoColumnRecord(headers: seq<string>, x: string, y: string)
    requires |headers| == 2
    ensures RowRecord(headers, [Cell(1, x), Cell(2, y)]).fields == map[headers[0] := x, headers[1] := y]
  {
    var cells := [Cell(1, x), Cell(2, y)];
    assert cells[..1] == [Cell(1, x)];
    assert cells[..1][..0] == [];
    assert HeaderKey(headers, 1) == headers[0] && HeaderKey(headers, 2) == headers[1];
    assert RowRecord(headers, cells[..1]).fields == map[headers[0] := x];
  }

  /** A row with a value in each of the first `|cells|` columns, under distinct headers: the
      keys were assigned in header order. */
  lemma {:induction false} RowKeyOrder(headers: seq<string>, cells: seq<Cell>)
    requires |cells| <= |headers|
    requires forall i :: 0 <= i < |cells| ==> cells[i].col == i + 1
    requires forall i, j :: 0 <= i < j < |headers| ==> headers[i] != headers[j]
    ensures RowRecord(headers, cells).order == headers[..|cells|]
  {
    if cells != [] {
      var n := |cells|;
      var prefix := cells[..n - 1];
      RowKeyOrder(headers, prefix);
      var k := HeaderKey(headers, cells[n - 1].col);
      assert k == headers[n - 1];
      assert k !in RowRecord(headers, prefix).order;
      assert headers[..n] == headers[..n - 1] + [headers[n - 1]];
    }
  }

  /** When no header is an array index, `Object.keys` of a full row lists the headers in
      column order. */
  lemma FullRowKeys(headers: seq<string>, cells: seq<Cell>)
    requires |cells| == |headers|
    requires forall i :: 0 <= i < |cells| ==> cells[i].col == i + 1
    requires forall i, j :: 0 <= i < j < |headers| ==> headers[i] != headers[j]
    requires forall i :: 0 <= i < |headers| ==> JsObject.IsOtherKey(headers[i])
    ensures JsObject.ObjectKeys(RowRecord(headers, cells).order) == headers
  {
    RowKeyOrder(headers, cells);
    assert headers[..|cells|] == headers;
    JsObject.ObjectKeysWithoutIndices(headers);
  }

  /** The headers "Name" and "Age" come back from `Object.keys` of a data row in that order. */
  lemma NameAgeKeys(name: string, age: string)
    ensures JsObject.ObjectKeys(RowRecord(["Name", "Age"], [Cell(1, name), Cell(2, age)]).order) == ["Name", "Age"]
  {
    var headers := ["Name", "Age"];
    assert !JsObject.IsDigit(headers[0][0]) && !JsObject.IsDigit(headers[1][0]);
    FullRowKeys(headers, [Cell(1, name), Cell(2, age)]);
  }

  /** A header that is an array index ("2024") is listed by `Object.keys` before "Name",
      although "Name" is the first column. */
  lemma NumericHeaderFirst(name: string, year: string)
    ensures JsObject.ObjectKeys(RowRecord(["Name", "2024"], [Cell(1, name), Cell(2, year)]).order) == ["2024", "Name"]
  {
    var headers := ["Name", "2024"];
    RowKeyOrder(headers, [Cell(1, name), Cell(2, year)]);
    assert headers[..2] == headers;
    JsObject.YearIsIndex();
    assert !JsObject.IsArrayIndex("Name") by { assert !JsObject.IsDigit('N'); }
    JsObject.IndexKeyFirst("Name", "2024");
  }

  // ---------------------------------------------------------------------------
  // The upload table and its routes.

  /** The file multer hands over: its original name, and the first worksheet, or `None` when
      loading the workbook (or reaching its first sheet) throws. */
  datatype UploadedFile = UploadedFile(originalName: string, sheet: Option<Worksheet>)

  datatype Response = Response(status: nat, message: string, uploadId: Option<nat>)

  function OwnedBy(uploads: seq<Upload>, owner: UserId): seq<Upload> {
    Filter(uploads, (u: Upload) => u.owner == owner)
  }

  function WithoutId(uploads: seq<Upload>, id: nat): seq<Upload> {
    Filter(uploads, (u: Upload) => u.id != id)
  }

  /** `Upload.findById(id)`: the upload with that id, if any. */
  function FindById(uploads: seq<Upload>, id: nat): (r: Option<Upload>)
    ensures r.Some? ==> r.value in uploads && r.value.id == id
    ensures r.None? <==> forall i :: 0 <= i < |uploads| ==> uploads[i].id != id
  {
    FindFirst(uploads, (u: Upload) => u.id == id)
  }

  /** GET `/`: the caller's uploads, newest `uploadedAt` first. */
  function ListFor(uploads: seq<Upload>, owner: UserId): (r: seq<Upload>)
    ensures forall i :: 0 <= i < |r| ==> r[i].owner == owner
    ensures multiset(r) == multiset(OwnedBy(uploads, owner))
    ensures forall u :: u in uploads && u.owner == owner ==> u in r
    ensures SortedDesc(r, (u: Upload) => u.uploadedAt)
  {
    var mine := OwnedBy(uploads, owner);
    var newest := (u: Upload) => u.uploadedAt;
    SortDescSorted(mine, newest);
    var r := SortDesc(mine, newest);
    assert forall i :: 0 <= i < |r| ==> r[i] in mine by {
      forall i | 0 <= i < |r| ensures r[i] in mine {
        assert r[i] in multiset(r);
      }
    }
    r
  }

  /** Removing an id keeps every other upload, in order, and nothing with that id. */
  lemma WithoutIdKeepsOthers(uploads: seq<Upload>, id: nat)
    ensures forall u :: u in WithoutId(uploads, id) ==> u.id != id && u in uploads
    ensures forall u :: u in uploads && u.id != id ==> u in WithoutId(uploads, id)
    ensures IsSubseq(WithoutId(uploads, id), uploads)
  {
    FilterIsSubseq(uploads, (u: Upload) => u.id != id);
  }

  class UploadStore {
    var uploads: seq<Upload>
    var nextId: nat

    /** Every upload has its own id, below the next one handed out. */
    ghost predicate Valid()
      reads this
    {
      && (forall i :: 0 <= i < |uploads| ==> uploads[i].id < nextId)
      && (forall i, j :: 0 <= i < j < |uploads| ==> uploads[i].id != uploads[j].id)
    }

    constructor ()
      ensures Valid() && uploads == []
    {
      uploads := [];
      nextId := 0;
    }

    predicate Fresh(id: nat)
      reads this
    {
      forall i :: 0 <= i < |uploads| ==> uploads[i].id != id
    }

    /** POST `/` for an authenticated requester: 400 without a file, 500 when parsing or the
        single save fails (nothing is stored), otherwise 201 and one new upload. The store's
        verdict on the save, beyond the schema's required filename, is `saveOk`. */
    method Create(file: Option<UploadedFile>, requester: UserId, now: int, saveOk: bool) returns (resp: Response)
      requires Valid()
      modifies this
      ensures Valid()
      ensures file.None? ==> resp == Response(400, "No file uploaded", None) && uploads == old(uploads)
      ensures file.Some? && file.value.sheet.None? ==>
                resp == Response(500, "Failed to upload and parse file", None) && uploads == old(uploads)
      ensures file.Some? && file.value.sheet.Some? && file.value.originalName == "" ==>
                resp == Response(500, "Failed to upload and parse file", None) && uploads == old(uploads)
      ensures file.Some? && file.value.sheet.Some? && !saveOk ==>
                resp == Response(500, "Failed to upload and parse file", None) && uploads == old(uploads)
      ensures resp.status == 201 <==>
                file.Some? && file.value.sheet.Some? && file.value.originalName != "" && saveOk
      ensures resp.status == 201 ==>
                var ws := file.value.sheet.value;
                var headers := TrimmedTexts(HeaderCells(ws));
                && resp.uploadId == Some(old(nextId))
                && old(Fresh(resp.uploadId.value))
                && uploads == old(uploads) + [Upload(resp.uploadId.value, requester, file.value.originalName,
                                                     ParsedRecords(ws, headers), now)]
    {
      if file.None? {
        return Response(400, "No file uploaded", None);
      }
      if file.value.sheet.None? {
        return Response(500, "Failed to upload and parse file", None);
      }
      var headers, rows := ParseWorksheet(file.value.sheet.value);
      if file.value.originalName == "" || !saveOk {
        // The schema requires a non-empty filename, so the save is rejected.
        return Response(500, "Failed to upload and parse file", None);
      }
      var id := nextId;
      nextId := nextId + 1;
      uploads := uploads + [Upload(id, requester, file.value.originalName, rows, now)];
      resp := Response(201, "File uploaded and parsed successfully", Some(id));
    }

    /** GET `/`. */
    function List(requester: UserId): (r: seq<Upload>)
      reads this
      ensures forall i :: 0 <= i < |r| ==> r[i].owner == requester
      ensures forall u :: u in uploads && u.owner == requester ==> u in r
    {
      ListFor(uploads, requester)
    }

    /** DELETE `/:id`: 404 for an unknown id (checked first), 403 for someone else's upload,
        otherwise exactly that upload is removed. */
    method Delete(requester: UserId, id: nat) returns (resp: Response)
      requires Valid()
      modifies this`uploads
      ensures Valid()
      ensures FindById(old(uploads), id).None? ==>
                resp == Response(404, "Upload not found", None) && uploads == old(uploads)
      ensures FindById(old(uploads), id).Some? && FindById(old(uploads), id).value.owner != requester ==>
                resp == Response(403, "You are not authorized to delete this upload", None) && uploads == old(uploads)
      ensures FindById(old(uploads), id).Some? && FindById(old(uploads), id).value.owner == requester ==>
                resp == Response(200, "Upload deleted successfully", None) && uploads == WithoutId(old(uploads), id)
    {
      var found := FindById(uploads, id);
      if found.None? {
        return Response(404, "Upload not found", None);
      }
      if found.value.owner != requester {
        return Response(403, "You are not authorized to delete this upload", None);
      }
      FilterIsSubseq(uploads, (u: Upload) => u.id != id);
      SubseqKeepsDistinctIds(WithoutId(uploads, id), uploads);
      uploads := WithoutId(uploads, id);
      resp := Response(200, "Upload deleted successfully", None);
    }
  }

  lemma {:induction false} SubseqKeepsDistinctIds(a: seq<Upload>, b: seq<Upload>)
    requires IsSubseq(a, b)
    requires forall i, j :: 0 <= i < j < |b| ==> b[i].id != b[j].id
    ensures forall i, j :: 0 <= i < j < |a| ==> a[i].id != a[j].id
    decreases |b|
  {
    if a != [] {
      var b' := b[1..];
      assert forall i, j :: 0 <= i < j < |b'| ==> b'[i].id != b'[j].id by {
        forall i, j | 0 <= i < j < |b'| ensures b'[i].id != b'[j].id {
          assert b'[i] == b[i + 1] && b'[j] == b[j + 1];
        }
      }
      if a[0] == b[0] && IsSubseq(a[1..], b') {
        SubseqKeepsDistinctIds(a[1..], b');
        SubseqElements(a[1..], b');
        forall j | 0 < j < |a| ensures a[0].id != a[j].id {
          assert a[j] == a[1..][j - 1];
          assert a[j] in a[1..];
          assert a[j] in b';
          var k :| 0 <= k < |b'| && b'[k] == a[j];
          assert b[k + 1] == a[j];
        }
      } else {
        SubseqKeepsDistinctIds(a, b');
      }
    }
  }

  lemma {:induction false} SubseqElements<T>(a: seq<T>, b: seq<T>)
    requires IsSubseq(a, b)
    ensures forall x :: x in a ==> x in b
    decreases |b|
  {
    if a != [] {
      if a[0] == b[0] && IsSubseq(a[1..], b[1..]) {
        SubseqElements(a[1..], b[1..]);
        assert a == [a[0]] + a[1..];
      } else {
        SubseqElements(a, b[1..]);
      }
    }
  }
}
