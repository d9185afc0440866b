/** Both controllers mounted on one store, as the page does: the loading and
    error cells they both use are the same cells (atoms.ts:19-27), so what one
    controller writes there is what the other reads. */
module Session {
  import opened Wrappers
  import opened Api
  import opened Atoms
  import opened CalculatorForm
  import opened FileUpload
  import Handler
  import Text

  /** A calculation followed by an upload on the same store: the upload starts
      from the cells the calculation left, the log holds both controllers'
      requests in order, and the file input ends as the upload left it. */
  method CalculateThenUpload(store: Store, form: Form, uploader: Uploader, parse: string -> Option<int>,
                             push: Outcome<int>, calculation: Outcome<ChangeResponse>,
                             file: Option<FileInfo>, upload: Outcome<JsonList>)
    requires form.store == store && uploader.store == store
    modifies store, uploader
    ensures var first := AfterCalculate(old(store.Snapshot()), form.Settings(), parse, push, calculation);
      var second := AfterFileSelect(first.cells, old(uploader.inputValue), file, upload);
      && store.Snapshot() == second.cells
      && store.sent == old(store.sent) + first.sent + second.sent
      && uploader.inputValue == second.inputValue
  {
    form.HandleCalculate(parse, push, calculation);
    uploader.HandleFileSelect(file, upload);
  }

  /** An error the form set is cleared by an accepted upload, and one the upload
      set is cleared by the next submit, whatever its outcome is going to be. */
  lemma SharedErrorCell(c: Cells, draft: Draft, parse: string -> Option<int>, push: Outcome<int>,
                        calculation: Outcome<ChangeResponse>, inputValue: string, file: FileInfo,
                        results: JsonList)
    requires IsCsvFile(file)
    ensures AfterFileSelect(AfterCalculate(c, draft, parse, push, calculation).cells, inputValue,
                            Some(file), Resolved(results)).cells.error == None
    ensures Submittable(c, parse) && push.Resolved? && calculation.Resolved? ==>
      AfterCalculate(AfterFileSelect(c, inputValue, Some(file), Rejected(OtherValue)).cells, draft, parse,
                     push, calculation).cells.error == None
  {
  }

  /** A CSV file of white space only has no rows, so the back end answers it with
      `null` (handler.go:145-147, 195-196); an accepted upload stores that body
      as the batch results (FileUploadComponent.tsx:50-51), and the render test
      `batchResults.length > 0` (FileUploadComponent.tsx:103) then reads a
      property of `null`. */
  lemma BlankFileNullsResults(c: Cells, inputValue: string, file: FileInfo, content: string,
                              parse: string -> Option<int>, divisor: int, reply: Handler.Reply<JsonList>)
    requires IsCsvFile(file) && divisor > 0
    requires forall k :: 0 <= k < |content| ==> Text.IsSpace(content[k])
    requires match Handler.CheckRows(Handler.Lines(content), parse)
      case Failure(e) => reply == Handler.HttpError(Handler.StatusBadRequest, e)
      case Success(reqs) => reply.Ok? && Handler.AnswersList(reply.body, reqs, divisor)
    ensures reply == Handler.Ok(Null)
    ensures var s := AfterFileSelect(c, inputValue, Some(file), Resolved(reply.body));
      s.cells.batchResults == Null && ResultsTableShown(s.cells).None?
  {
    Handler.BlankFileAnswersNull(content, parse, divisor, reply);
  }
}
