/** The batch upload controller (frontend/src/components/FileUploadComponent.tsx):
    the CSV file check and the two handlers that write the shared cells. The
    upload's promise is a parameter saying how it settles. */
module FileUpload {
  import opened Wrappers
  import opened Text
  import opened Api
  import opened Atoms

  const InvalidFileMessage: string := "Please upload a valid CSV file"
  const UploadFallback: string := "Failed to process file"

  /** The file check (FileUploadComponent.tsx:40): a name ending in ".csv" or the
      type "text/csv" is enough. */
  predicate IsCsvFile(file: FileInfo) {
    HasSuffix(file.name, ".csv") || file.mimeType == "text/csv"
  }

  /** Either half of the check admits a file on its own. */
  lemma CsvExamples()
    ensures IsCsvFile(FileInfo("data.txt", "text/csv"))
    ensures IsCsvFile(FileInfo("data.csv", "application/vnd.ms-excel"))
    ensures !IsCsvFile(FileInfo("data.txt", "text/plain"))
    ensures !IsCsvFile(FileInfo("csv", ""))
  {
    assert "data.txt"[8 - 4..] == ".txt";
    assert "data.csv"[8 - 4..] == ".csv";
  }

  /** The results table's render test `batchResults.length > 0`
      (FileUploadComponent.tsx:103); `None` when the cell holds `null`, where
      reading `length` throws. */
  function ResultsTableShown(c: Cells): Option<bool> {
    match c.batchResults
    case Null => None
    case Array(items) => Some(|items| > 0)
  }

  /** What the upload handler leaves behind: the cells, the requests it sent and
      the file input's value. */
  datatype UploadStep = UploadStep(cells: Cells, sent: seq<Dispatch>, inputValue: string)

  /** handleFileSelect (FileUploadComponent.tsx:35-62) run to completion: with no
      file nothing happens; a file that fails the check sets the error and stops;
      otherwise the error and batch results are cleared and loading set before the
      upload, whose body (a list, or `null`) replaces the results or whose
      rejection sets the error; loading is dropped and the input emptied either
      way. */
  function AfterFileSelect(c: Cells, inputValue: string, file: Option<FileInfo>,
                           upload: Outcome<JsonList>): UploadStep
  {
    if file.None? then UploadStep(c, [], inputValue)
    else if !IsCsvFile(file.value) then UploadStep(c.(error := Some(InvalidFileMessage)), [], inputValue)
    else
      var started := c.(error := None, batchResults := Array([]), loading := true);
      var sent := [Dispatch(UploadFile(file.value), started)];
      match upload
      case Resolved(results) => UploadStep(started.(batchResults := results, loading := false), sent, "")
      case Rejected(reason) =>
        UploadStep(started.(error := Some(MessageOf(reason, UploadFallback)), loading := false), sent, "")
  }

  /** With no file, or a file that fails the check, nothing is uploaded, loading,
      the batch results and the input are untouched, and only a rejected file sets
      the error. */
  lemma NothingUploaded(c: Cells, inputValue: string, file: Option<FileInfo>,
                        upload: Outcome<JsonList>)
    requires file.None? || !IsCsvFile(file.value)
    ensures var s := AfterFileSelect(c, inputValue, file, upload);
      && s.sent == [] && s.inputValue == inputValue
      && s.cells == (if file.None? then c else c.(error := Some(InvalidFileMessage)))
  {
  }

  /** An accepted file is uploaded once, when the error is cleared, the results
      emptied and loading set, and nothing else has changed; afterwards loading
      is off and the input is empty; on success the results are exactly the
      returned body and the error is cleared, and a `null` body leaves a cell the
      render test cannot read; on failure the results stay empty and the error is
      the rejection's message or the fallback. The other cells are not written. */
  lemma AcceptedFile(c: Cells, inputValue: string, file: FileInfo, upload: Outcome<JsonList>)
    requires IsCsvFile(file)
    ensures var s := AfterFileSelect(c, inputValue, Some(file), upload);
      && s.sent == [Dispatch(UploadFile(file), c.(error := None, batchResults := Array([]), loading := true))]
      && !s.cells.loading && s.inputValue == ""
      && (upload.Resolved? ==> s.cells.batchResults == upload.value && s.cells.error.None?)
      && (upload.Resolved? ==> (ResultsTableShown(s.cells).None? <==> upload.value.Null?))
      && (upload.Rejected? ==>
            s.cells.batchResults == Array([]) && ResultsTableShown(s.cells) == Some(false)
            && s.cells.error == Some(MessageOf(upload.reason, UploadFallback)))
      && s.cells.amountOwed == c.amountOwed && s.cells.amountPaid == c.amountPaid
      && s.cells.changeResult == c.changeResult
  {
  }

  /** handleClearResults (FileUploadComponent.tsx:64-67). */
  function AfterClearResults(c: Cells): Cells {
    c.(batchResults := Array([]), error := None)
  }

  /** Clearing the results empties them (so the table is hidden, even after a
      `null` upload) and the error, touches nothing else, and a second clear
      changes nothing. */
  lemma ClearResultsProperties(c: Cells)
    ensures var d := AfterClearResults(c);
      && d.batchResults == Defaults.batchResults && d.error == Defaults.error
      && ResultsTableShown(d) == Some(false)
      && d.amountOwed == c.amountOwed && d.amountPaid == c.amountPaid
      && d.changeResult == c.changeResult && d.loading == c.loading
      && AfterClearResults(d) == d
  {
  }

  /** One mounted upload component: the store it shares and its file input. */
  class Uploader {
    const store: Store
    var inputValue: string

    /** An upload component on `store` with an empty file input. */
    constructor (store: Store)
      ensures this.store == store && inputValue == ""
    {
      this.store := store;
      inputValue := "";
    }

    /** handleFileSelect, writing the cells in the order the component does. */
    method HandleFileSelect(file: Option<FileInfo>, upload: Outcome<JsonList>)
      modifies this, store
      ensures store.Snapshot() == AfterFileSelect(old(store.Snapshot()), old(inputValue), file, upload).cells
      ensures store.sent == old(store.sent) + AfterFileSelect(old(store.Snapshot()), old(inputValue), file, upload).sent
      ensures inputValue == AfterFileSelect(old(store.Snapshot()), old(inputValue), file, upload).inputValue
    {
      if file.None? {
        return;
      }
      if !HasSuffix(file.value.name, ".csv") && file.value.mimeType != "text/csv" {
        store.error := Some(InvalidFileMessage);
        return;
      }
      store.error := None;
      store.batchResults := Array([]);
      store.loading := true;
      store.sent := store.sent + [Dispatch(UploadFile(file.value), store.Snapshot())];
      match upload {
        case Resolved(results) =>
          store.batchResults := results;
        case Rejected(reason) =>
          store.error := Some(MessageOf(reason, UploadFallback));
      }
      store.loading := false;
      inputValue := "";
    }

    /** handleClearResults. */
    method HandleClearResults()
      modifies store
      ensures store.Snapshot() == AfterClearResults(old(store.Snapshot()))
      ensures store.sent == old(store.sent)
    {
      store.batchResults := Array([]);
      store.error := None;
    }
  }
}
