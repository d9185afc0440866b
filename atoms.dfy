/** The client's shared state (frontend/src/state/atoms.ts): six Recoil atoms
    that both controllers read and overwrite. */
module Atoms {
  import opened Wrappers
  import opened Api

  /** A request leaving the client, with the cells as they were when it left. */
  datatype Dispatch = Dispatch(request: Request, cellsWhenSent: Cells)

  /** The values of the six cells at one moment. The batch results are declared
      an array, but the upload stores whatever list the back end answered, and
      that may be `null`. */
  datatype Cells = Cells(
    amountOwed: string,
    amountPaid: string,
    changeResult: Option<ChangeResponse>,
    loading: bool,
    error: Option<string>,
    batchResults: JsonList)

  /** The declared defaults: empty amount texts, no result, not loading, no error,
      no batch results. */
  const Defaults: Cells := Cells("", "", None, false, None, Array([]))

  /** One store of the six cells, shared by every controller that holds it. The
      ghost `sent` log records the requests the controllers send, in order. */
  class Store {
    var amountOwed: string
    var amountPaid: string
    var changeResult: Option<ChangeResponse>
    var loading: bool
    var error: Option<string>
    var batchResults: JsonList
    ghost var sent: seq<Dispatch>

    /** The cells' current values. */
    function Snapshot(): Cells
      reads this
    {
      Cells(amountOwed, amountPaid, changeResult, loading, error, batchResults)
    }

    /** A fresh store holds the declared defaults (atoms.ts:4-32) and has sent
        nothing. */
    constructor ()
      ensures Snapshot() == Defaults
      ensures sent == []
    {
      amountOwed := "";
      amountPaid := "";
      changeResult := None;
      loading := false;
      error := None;
      batchResults := Array([]);
      sent := [];
    }
  }
}
