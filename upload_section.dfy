/** The upload drop zone: which dropped file is sent, the extension check before sending,
    and the `uploading` flag and status message around the request. The request itself is
    the caller's: `OnDrop` names the file to send and `OnSettled` takes its outcome. */
module UploadSection {
  import opened Common

  const NotExcel := "❌ Only Excel files (.xlsx, .xls) are supported."

  /** The extension check: the name must end in `.xlsx` or `.xls`, letter case included. */
  predicate IsExcel(name: string) {
    EndsWith(name, ".xlsx") || EndsWith(name, ".xls")
  }

  /** The upload request's outcome: the server's message on success, and on failure the
      server's message if it sent one. */
  datatype Outcome = Uploaded(reply: string) | Failed(reason: Option<string>)

  /** The status line once the request has settled. */
  function SettledMessage(outcome: Outcome): (text: string)
    ensures outcome.Uploaded? ==> text == "✅ " + outcome.reply && StartsWith(text, "✅ ")
    ensures outcome.Failed? ==> StartsWith(text, "❌ ")
    ensures outcome.Failed? ==> text[|"❌ "|..] == if Truthy(outcome.reason) then outcome.reason.value else "Upload failed"
  {
    match outcome
    case Uploaded(m) => "✅ " + m
    case Failed(m) => "❌ " + (if Truthy(m) then m.value else "Upload failed")
  }

  class DropZone {
    var uploading: bool
    var message: string

    constructor ()
      ensures !uploading && message == ""
    {
      uploading := false;
      message := "";
    }

    /** `onDrop`: an empty drop changes nothing; otherwise only the first file counts, a name
        that fails the extension check sets the error message, and an Excel name clears the
        message, marks the upload as running, and is returned as the file to send. */
    method OnDrop(accepted: seq<string>) returns (send: Option<string>)
      modifies this
      ensures accepted == [] ==> send.None? && uploading == old(uploading) && message == old(message)
      ensures accepted != [] && !IsExcel(accepted[0]) ==> send.None? && !uploading && message == NotExcel
      ensures accepted != [] && IsExcel(accepted[0]) ==> send == Some(accepted[0]) && uploading && message == ""
    {
      if |accepted| == 0 {
        return None;
      }
      uploading := true;
      message := "";
      var name := accepted[0];
      if !EndsWith(name, ".xlsx") && !EndsWith(name, ".xls") {
        message := NotExcel;
        uploading := false;
        return None;
      }
      send := Some(name);
    }

    /** The request settled: show its outcome and stop the upload indicator. */
    method OnSettled(outcome: Outcome)
      modifies this
      ensures !uploading && message == SettledMessage(outcome)
    {
      match outcome {
        case Uploaded(m) =>
          message := "✅ " + m;
        case Failed(m) =>
          message := "❌ " + (if Truthy(m) then m.value else "Upload failed");
      }
      uploading := false;
    }
  }

  /** The check is on the name's tail only and is case-sensitive: an upper-case extension is
      refused, and so is a name that merely contains `.xlsx` earlier on. */
  lemma ExtensionCheckExamples()
    ensures IsExcel("a.xlsx") && IsExcel("a.xls")
    ensures !IsExcel("A.XLSX")
    ensures !IsExcel("a.xlsx.csv")
  {
    assert "a.xlsx"[1..] == ".xlsx";
    assert "a.xls"[1..] == ".xls";
    assert "A.XLSX"[1..] != ".xlsx";
    assert "A.XLSX"[2..] != ".xls";
    assert "a.xlsx.csv"[5..] != ".xlsx";
    assert "a.xlsx.csv"[6..] != ".xls";
  }

  /** A drop followed by the outcome of the request it started always ends with the indicator
      off and the outcome's message shown. */
  method DropAndSettle(zone: DropZone, accepted: seq<string>, outcome: Outcome) returns (sent: Option<string>)
    modifies zone
    ensures accepted != [] ==> !zone.uploading
    ensures accepted != [] && IsExcel(accepted[0]) ==> sent == Some(accepted[0]) && zone.message == SettledMessage(outcome)
    ensures accepted != [] && !IsExcel(accepted[0]) ==> sent.None? && zone.message == NotExcel
    ensures accepted == [] ==> sent.None? && zone.uploading == old(zone.uploading) && zone.message == old(zone.message)
  {
    sent := zone.OnDrop(accepted);
    if sent.Some? {
      zone.OnSettled(outcome);
    }
  }
}
