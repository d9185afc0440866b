/** The JSON shapes the back end answers with and the front end reads
    (CalculateChangeResponse in backend/internal/adapters/http/handler.go,
    ChangeResponse in frontend/src/types), with amounts in integer cents, and
    what a rejected promise hands to a `catch` block on the client. */
module Api {

  /** One answered calculation: the two amounts echoed back, the change, its
      breakdown by denomination name and the formatted breakdown. */
  datatype ChangeResponse = ChangeResponse(
    amountOwed: int,
    amountPaid: int,
    change: int,
    denominations: map<string, int>,
    formattedChange: string)

  /** A list of responses as JSON carries it: a Go slice that was never
      appended to encodes as `null`, and the client stores whichever of the two
      it receives. */
  datatype JsonList = Null | Array(items: seq<ChangeResponse>)

  /** The body of a config push: the back end's Config record. */
  datatype ConfigBody = ConfigBody(randomDivisor: int, country: string, specialCases: seq<string>)

  /** The parts of a browser `File` the upload controller looks at. */
  datatype FileInfo = FileInfo(name: string, mimeType: string)

  /** A request the client sends to the back end. */
  datatype Request =
    | PushConfig(config: ConfigBody)
    | Calculate(amountOwed: int, amountPaid: int)
    | UploadFile(file: FileInfo)

  /** What a `catch (err)` receives: an `Error` (axios and `fetch` reject with
      one) or any other thrown value. */
  datatype Thrown = ErrorObject(message: string) | OtherValue

  /** How an awaited promise settles. */
  datatype Outcome<T> = Resolved(value: T) | Rejected(reason: Thrown)

  /** `err instanceof Error ? err.message : fallback`. */
  function MessageOf(reason: Thrown, fallback: string): string {
    match reason
    case ErrorObject(message) => message
    case OtherValue => fallback
  }
}
