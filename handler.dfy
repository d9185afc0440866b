/** The change endpoints of the back end (backend/internal/adapters/http/handler.go):
    the single calculation, the batch of calculations and the CSV file upload.
    A handler's answer is either the JSON body it encodes or the status and
    message it hands to `http.Error`. Decoding the JSON request body, reading the
    multipart form and `strconv.ParseFloat` are parameters: the decoded value (or
    its absence), what the first read of the file gave, and a parse oracle from a
    field's text to cents. */
module Handler {
  import opened Wrappers
  import opened Text
  import opened Change
  import opened Api

  /** What a handler writes back. */
  datatype Reply<T> = Ok(body: T) | HttpError(status: int, message: string)

  /** What reading the uploaded file gave: no `file` form field, a failed first
      read (an empty file ends at once with `io.EOF`), or the text of the first
      read. */
  datatype Upload = MissingFile | ReadFailed | FirstRead(content: string)

  const StatusBadRequest: int := 400
  const StatusMethodNotAllowed: int := 405
  const MethodNotAllowedMessage: string := "Method not allowed"
  const InvalidBodyMessage: string := "Invalid request body"

  /** Encoding of the `responses` slice the loops build. */
  function Encode(responses: seq<ChangeResponse>): JsonList {
    if responses == [] then Null else Array(responses)
  }

  // ---------------------------------------------------------------------------
  // What a correct answer is
  // ---------------------------------------------------------------------------

  /** `resp` answers `req`: it echoes both amounts, its change is their
      difference, its breakdown is worth the change and is the one
      CalculateChange hands out for it, and its text is that breakdown formatted. */
  ghost predicate Answers(resp: ChangeResponse, req: ChangeRequest, divisor: int)
    requires divisor > 0
  {
    && resp.amountOwed == req.amountOwed
    && resp.amountPaid == req.amountPaid
    && resp.change == req.amountPaid - req.amountOwed
    && SumsTo(resp.denominations, resp.change)
    && ChosenBreakdown(resp.denominations, resp.change, divisor)
    && resp.formattedChange == Formatted(resp.denominations)
  }

  /** One response per request, in the same order, each answering its request. */
  ghost predicate AnswersAll(items: seq<ChangeResponse>, reqs: seq<ChangeRequest>, divisor: int)
    requires divisor > 0
  {
    |items| == |reqs| && forall j :: 0 <= j < |items| ==> Answers(items[j], reqs[j], divisor)
  }

  /** The encoded list answers `reqs`: `null` for no requests, otherwise an array
      of answers. */
  ghost predicate AnswersList(body: JsonList, reqs: seq<ChangeRequest>, divisor: int)
    requires divisor > 0
  {
    match body
    case Null => reqs == []
    case Array(items) => items != [] && AnswersAll(items, reqs, divisor)
  }

  /** Appending an answer and its request keeps the lists in step. */
  lemma AnswersAppend(items: seq<ChangeResponse>, reqs: seq<ChangeRequest>, resp: ChangeResponse,
                      req: ChangeRequest, divisor: int)
    requires divisor > 0
    requires AnswersAll(items, reqs, divisor) && Answers(resp, req, divisor)
    ensures AnswersAll(items + [resp], reqs + [req], divisor)
  {
  }

  /** Every request pays at least what is owed. */
  predicate AllPayable(reqs: seq<ChangeRequest>) {
    forall j :: 0 <= j < |reqs| ==> reqs[j].amountOwed <= reqs[j].amountPaid
  }

  // ---------------------------------------------------------------------------
  // One calculation
  // ---------------------------------------------------------------------------

  /** The body shared by the three handlers (handler.go:53-70, 95-113, 172-190):
      calculate, and on success build the response around the formatted result. */
  method BuildResponse(req: ChangeRequest, divisor: int) returns (r: Result<ChangeResponse, string>)
    requires divisor > 0
    ensures r.Failure? <==> req.amountPaid < req.amountOwed
    ensures r.Failure? ==> r.error == NegativeChangeMessage
    ensures r.Success? ==> Answers(r.value, req, divisor)
  {
    var result := CalculateChange(req, divisor);
    if result.Failure? {
      return Failure(result.error);
    }
    var formatted := FormatResult(result.value);
    return Success(ChangeResponse(req.amountOwed, req.amountPaid, result.value.total,
                                  result.value.denominations, formatted));
  }

  /** HandleCalculateChange (handler.go:39-75): 405 for anything but POST, before
      the body is looked at; 400 for an undecodable body; 400 with the engine's
      message for a negative change; otherwise the answer. */
  method HandleCalculateChange(httpMethod: string, body: Option<ChangeRequest>, divisor: int)
    returns (reply: Reply<ChangeResponse>)
    requires divisor > 0
    ensures httpMethod != "POST" ==> reply == HttpError(StatusMethodNotAllowed, MethodNotAllowedMessage)
    ensures httpMethod == "POST" && body.None? ==> reply == HttpError(StatusBadRequest, InvalidBodyMessage)
    ensures httpMethod == "POST" && body.Some? ==>
      if body.value.amountPaid < body.value.amountOwed
      then reply == HttpError(StatusBadRequest, NegativeChangeMessage)
      else reply.Ok? && Answers(reply.body, body.value, divisor)
  {
    if httpMethod != "POST" {
      return HttpError(StatusMethodNotAllowed, MethodNotAllowedMessage);
    }
    if body.None? {
      return HttpError(StatusBadRequest, InvalidBodyMessage);
    }
    var r := BuildResponse(body.value, divisor);
    if r.Failure? {
      return HttpError(StatusBadRequest, r.error);
    }
    return Ok(r.value);
  }

  // ---------------------------------------------------------------------------
  // Batch
  // ---------------------------------------------------------------------------

  /** HandleBatchCalculate (handler.go:78-120): after the method and body checks,
      one response per request in input order; the first request with a negative
      change aborts the whole batch with 400, and nothing partial is encoded. */
  method HandleBatchCalculate(httpMethod: string, body: Option<seq<ChangeRequest>>, divisor: int)
    returns (reply: Reply<JsonList>)
    requires divisor > 0
    ensures httpMethod != "POST" ==> reply == HttpError(StatusMethodNotAllowed, MethodNotAllowedMessage)
    ensures httpMethod == "POST" && body.None? ==> reply == HttpError(StatusBadRequest, InvalidBodyMessage)
    ensures httpMethod == "POST" && body.Some? ==>
      if AllPayable(body.value)
      then reply.Ok? && AnswersList(reply.body, body.value, divisor)
      else reply == HttpError(StatusBadRequest, NegativeChangeMessage)
  {
    if httpMethod != "POST" {
      return HttpError(StatusMethodNotAllowed, MethodNotAllowedMessage);
    }
    if body.None? {
      return HttpError(StatusBadRequest, InvalidBodyMessage);
    }
    var requests := body.value;
    var responses: seq<ChangeResponse> := [];
    for i := 0 to |requests|
      invariant AllPayable(requests[..i])
      invariant AnswersAll(responses, requests[..i], divisor)
    {
      var r := BuildResponse(requests[i], divisor);
      if r.Failure? {
        return HttpError(StatusBadRequest, r.error);
      }
      TakeOneMore(requests, i);
      AnswersAppend(responses, requests[..i], r.value, requests[i], divisor);
      responses := responses + [r.value];
    }
    assert requests[..|requests|] == requests;
    return Ok(Encode(responses));
  }

  // ---------------------------------------------------------------------------
  // CSV upload
  // ---------------------------------------------------------------------------

  /** The file's lines: the whole text trimmed of white space, then split on
      newlines (handler.go:145). */
  function Lines(content: string): seq<string> {
    Split(TrimSpace(content), '\n')
  }

  /** The lines that are not exactly empty, in file order (handler.go:150-152). */
  function NonEmpty(lines: seq<string>): (rows: seq<string>)
    ensures |rows| <= |lines|
    ensures forall j :: 0 <= j < |rows| ==> rows[j] != ""
  {
    if lines == [] then []
    else NonEmpty(lines[..|lines| - 1]) + (if lines[|lines| - 1] == "" then [] else [lines[|lines| - 1]])
  }

  /** Filtering a line appended at the end. */
  lemma NonEmptyAppend(lines: seq<string>, line: string)
    ensures NonEmpty(lines + [line]) == NonEmpty(lines) + (if line == "" then [] else [line])
  {
    assert (lines + [line])[..|lines|] == lines;
  }

  /** Reading one non-empty line (handler.go:154-170): exactly two comma-separated
      fields, each trimmed and then parsed, the owed field first; the messages quote
      the line or the untrimmed field. */
  function ParseLine(line: string, parse: string -> Option<int>): Result<ChangeRequest, string> {
    var parts := Split(line, ',');
    if |parts| != 2 then Failure("Invalid line format: " + line)
    else match parse(TrimSpace(parts[0]))
      case None => Failure("Invalid amount owed: " + parts[0])
      case Some(owed) =>
        match parse(TrimSpace(parts[1]))
        case None => Failure("Invalid amount paid: " + parts[1])
        case Some(paid) => Success(ChangeRequest(owed, paid))
  }

  /** A non-empty line's fate: its parse error, the engine's error for a negative
      change, or the request it makes. */
  function RowVerdict(line: string, parse: string -> Option<int>): Result<ChangeRequest, string> {
    match ParseLine(line, parse)
    case Failure(e) => Failure(e)
    case Success(req) =>
      if req.amountPaid < req.amountOwed then Failure(NegativeChangeMessage) else Success(req)
  }

  /** The per-line loop read front to back: the requests of the non-empty lines,
      or the first failure. */
  function CheckRows(lines: seq<string>, parse: string -> Option<int>): Result<seq<ChangeRequest>, string> {
    if lines == [] then Success([])
    else
      var prior := CheckRows(lines[..|lines| - 1], parse);
      var line := lines[|lines| - 1];
      if prior.Failure? || line == "" then prior
      else match RowVerdict(line, parse)
        case Failure(e) => Failure(e)
        case Success(req) => Success(prior.value + [req])
  }

  /** Row `k` is the first of `rows` that fails. */
  ghost predicate FirstBadAt(rows: seq<string>, k: int, parse: string -> Option<int>) {
    && 0 <= k < |rows|
    && RowVerdict(rows[k], parse).Failure?
    && forall j :: 0 <= j < k ==> RowVerdict(rows[j], parse).Success?
  }

  /** Once a prefix of the lines has failed, later lines change nothing. */
  lemma {:induction false} CheckRowsAbort(lines: seq<string>, k: int, parse: string -> Option<int>)
    requires 0 <= k <= |lines|
    requires CheckRows(lines[..k], parse).Failure?
    ensures CheckRows(lines, parse) == CheckRows(lines[..k], parse)
  {
    if k < |lines| {
      assert lines[..|lines| - 1][..k] == lines[..k];
      CheckRowsAbort(lines[..|lines| - 1], k, parse);
    } else {
      assert lines[..k] == lines;
    }
  }

  /** Line `i` is empty: the loop skips it. */
  lemma RowSkipped(lines: seq<string>, i: int, parse: string -> Option<int>)
    requires 0 <= i < |lines| && lines[i] == ""
    ensures CheckRows(lines[..i + 1], parse) == CheckRows(lines[..i], parse)
  {
    TakeOneMore(lines, i);
  }

  /** Line `i` is accepted after an accepted prefix: its request is appended. */
  lemma RowAccepted(lines: seq<string>, i: int, parse: string -> Option<int>, reqs: seq<ChangeRequest>,
                    req: ChangeRequest)
    requires 0 <= i < |lines| && lines[i] != ""
    requires CheckRows(lines[..i], parse) == Success(reqs)
    requires RowVerdict(lines[i], parse) == Success(req)
    ensures CheckRows(lines[..i + 1], parse) == Success(reqs + [req])
  {
    TakeOneMore(lines, i);
  }

  /** Line `i` fails after an accepted prefix: its failure is the answer. */
  lemma RowRejected(lines: seq<string>, i: int, parse: string -> Option<int>, e: string)
    requires 0 <= i < |lines| && lines[i] != ""
    requires CheckRows(lines[..i], parse).Success?
    requires RowVerdict(lines[i], parse) == Failure(e)
    ensures CheckRows(lines, parse) == Failure(e)
  {
    RowFails(lines, i, parse, e);
    CheckRowsAbort(lines, i + 1, parse);
  }

  /** Line `i` fails after an accepted prefix: the prefix through it fails. */
  lemma RowFails(lines: seq<string>, i: int, parse: string -> Option<int>, e: string)
    requires 0 <= i < |lines| && lines[i] != ""
    requires CheckRows(lines[..i], parse).Success?
    requires RowVerdict(lines[i], parse) == Failure(e)
    ensures CheckRows(lines[..i + 1], parse) == Failure(e)
  {
    TakeOneMore(lines, i);
  }

  /** `result` succeeds exactly when every row is accepted, and then holds one
      request per row, in order, each the one that row reads as. */
  ghost predicate AcceptsAll(rows: seq<string>, result: Result<seq<ChangeRequest>, string>,
                             parse: string -> Option<int>)
  {
    && (result.Success? <==> forall j :: 0 <= j < |rows| ==> RowVerdict(rows[j], parse).Success?)
    && (result.Success? ==>
          && |result.value| == |rows|
          && forall j :: 0 <= j < |rows| ==> RowVerdict(rows[j], parse) == Success(result.value[j]))
  }

  /** One more non-empty line read by the loop keeps the result in step with
      the rows. */
  lemma AcceptsStep(rows: seq<string>, prior: Result<seq<ChangeRequest>, string>, line: string,
                    parse: string -> Option<int>)
    requires AcceptsAll(rows, prior, parse) && line != ""
    ensures AcceptsAll(rows + [line],
                       if prior.Failure? then prior
                       else match RowVerdict(line, parse)
                         case Failure(e) => Failure(e)
                         case Success(req) => Success(prior.value + [req]),
                       parse)
  {
    var next := rows + [line];
    assert next[..|rows|] == rows && next[|rows|] == line;
    if prior.Failure? {
      var j :| 0 <= j < |rows| && !RowVerdict(rows[j], parse).Success?;
      assert next[j] == rows[j];
    }
  }

  /** The upload succeeds exactly when every non-empty line is accepted, and then
      it yields one request per non-empty line, in file order, each the one that
      line reads as. */
  lemma {:induction false} CheckRowsAccepted(lines: seq<string>, parse: string -> Option<int>)
    ensures AcceptsAll(NonEmpty(lines), CheckRows(lines, parse), parse)
  {
    if lines != [] {
      var init := lines[..|lines| - 1];
      CheckRowsAccepted(init, parse);
      if lines[|lines| - 1] != "" {
        AcceptsStep(NonEmpty(init), CheckRows(init, parse), lines[|lines| - 1], parse);
      }
    }
  }

  /** A failed upload reports the first non-empty line that fails, with that
      line's own message. */
  lemma {:induction false} CheckRowsFirstFailure(lines: seq<string>, parse: string -> Option<int>)
    requires CheckRows(lines, parse).Failure?
    ensures exists k :: FirstBadAt(NonEmpty(lines), k, parse)
                        && CheckRows(lines, parse).error == RowVerdict(NonEmpty(lines)[k], parse).error
  {
    var init := lines[..|lines| - 1];
    var line := lines[|lines| - 1];
    var rows := NonEmpty(init);
    if CheckRows(init, parse).Failure? {
      CheckRowsFirstFailure(init, parse);
      var k :| FirstBadAt(rows, k, parse) && CheckRows(init, parse).error == RowVerdict(rows[k], parse).error;
      assert NonEmpty(lines)[..|rows|] == rows;
      assert FirstBadAt(NonEmpty(lines), k, parse);
    } else {
      CheckRowsAccepted(init, parse);
      assert NonEmpty(lines) == rows + [line];
      assert FirstBadAt(NonEmpty(lines), |rows|, parse);
    }
  }

  /** A line with no comma, including one made only of white space, is a format
      error quoting the line. */
  lemma LineWithoutComma(line: string, parse: string -> Option<int>)
    requires ',' !in line
    ensures RowVerdict(line, parse) == Failure("Invalid line format: " + line)
  {
    SplitNoSeparator(line, ',');
  }

  /** For a line `x,y`: the owed field `x` is judged first, so an unreadable `x`
      is reported whatever `y` holds; each message quotes the untrimmed field. */
  lemma LineFields(x: string, y: string, parse: string -> Option<int>)
    requires ',' !in x && ',' !in y
    ensures parse(TrimSpace(x)).None? ==>
      ParseLine(x + "," + y, parse) == Failure("Invalid amount owed: " + x)
    ensures parse(TrimSpace(x)).Some? && parse(TrimSpace(y)).None? ==>
      ParseLine(x + "," + y, parse) == Failure("Invalid amount paid: " + y)
    ensures parse(TrimSpace(x)).Some? && parse(TrimSpace(y)).Some? ==>
      ParseLine(x + "," + y, parse)
        == Success(ChangeRequest(parse(TrimSpace(x)).value, parse(TrimSpace(y)).value))
  {
    assert x + "," + y == x + [','] + y;
    SplitAfterPiece(x, ',', y);
    SplitNoSeparator(y, ',');
    var parts := Split(x + "," + y, ',');
    assert parts == [x, y];
    assert parts[0] == x && parts[1] == y;
  }

  /** A line with two or more commas is a format error. */
  lemma LineWithExtraComma(line: string, parse: string -> Option<int>)
    requires Occurrences(line, ',') >= 2
    ensures RowVerdict(line, parse) == Failure("Invalid line format: " + line)
  {
  }

  /** Only the ends of the file are trimmed: for rows `x` and `y`, the text
      `x`, newline, a space, two newlines, `y`, newline reads as four lines, a
      white-space line that survives as a line of its own and an empty one that
      the loop skips. */
  lemma InnerBlankLines(x: string, y: string)
    requires x != [] && !IsSpace(x[0]) && '\n' !in x
    requires y != [] && !IsSpace(y[|y| - 1]) && '\n' !in y
    ensures Lines(x + "\n \n\n" + y + "\n") == [x, " ", "", y]
  {
    var body := x + "\n \n\n" + y;
    var content := body + "\n";
    assert content[0] == x[0];
    assert TrimLeft(content) == content;
    assert content[..|content| - 1] == body;
    assert body[|body| - 1] == y[|y| - 1];
    assert TrimRight(body) == body;
    assert TrimSpace(content) == body;
    var lines := [x, " ", "", y];
    assert lines[1..] == [" ", "", y] && lines[2..] == ["", y] && lines[3..] == [y];
    assert Join(lines[3..], '\n') == y;
    assert Join(lines[2..], '\n') == "" + ['\n'] + y;
    assert Join(lines[1..], '\n') == " " + ['\n'] + ("" + ['\n'] + y);
    assert Join(lines, '\n') == body;
    SplitJoin(lines, '\n');
  }

  /** The lines the loop acts on are exactly the lines that are not empty. */
  lemma {:induction false} NonEmptyKeeps(lines: seq<string>)
    ensures forall x :: x in NonEmpty(lines) <==> x in lines && x != ""
  {
    if lines != [] {
      var init := lines[..|lines| - 1];
      NonEmptyKeeps(init);
      assert lines == init + [lines[|lines| - 1]];
    }
  }

  /** A non-empty line without a comma anywhere in the file, a white-space line
      between two rows included, makes the whole upload fail. */
  lemma CommaFreeLineRejects(content: string, line: string, parse: string -> Option<int>)
    requires line in Lines(content) && line != "" && ',' !in line
    ensures CheckRows(Lines(content), parse).Failure?
  {
    var rows := NonEmpty(Lines(content));
    NonEmptyKeeps(Lines(content));
    var j :| 0 <= j < |rows| && rows[j] == line;
    LineWithoutComma(line, parse);
    CheckRowsAccepted(Lines(content), parse);
  }

  /** A file of white space only trims to the empty text, whose one line is
      empty, so no row is read (handler.go:145-152). */
  lemma BlankFileHasNoRows(content: string, parse: string -> Option<int>)
    requires forall k :: 0 <= k < |content| ==> IsSpace(content[k])
    ensures Lines(content) == [""]
    ensures CheckRows(Lines(content), parse) == Success([])
  {
    TrimSpaceBlank(content);
    var lines := Lines(content);
    assert lines == [""];
    assert lines[..0] == [];
  }

  /** Whatever the upload handler answers for a file of white space only is a
      success whose body is `null`: `responses` is never appended to
      (handler.go:147, 195-196). */
  lemma BlankFileAnswersNull(content: string, parse: string -> Option<int>, divisor: int, reply: Reply<JsonList>)
    requires divisor > 0
    requires forall k :: 0 <= k < |content| ==> IsSpace(content[k])
    requires match CheckRows(Lines(content), parse)
      case Failure(e) => reply == HttpError(StatusBadRequest, e)
      case Success(reqs) => reply.Ok? && AnswersList(reply.body, reqs, divisor)
    ensures reply == Ok(Null)
  {
    BlankFileHasNoRows(content, parse);
  }

  /** HandleFileUpload (handler.go:123-197): 405 for anything but POST; 400 when
      the form has no file or its first read fails; then the lines of the file,
      each non-empty one parsed and calculated in order, the first failure
      answering 400 with its message and nothing partial encoded. */
  method HandleFileUpload(httpMethod: string, upload: Upload, parse: string -> Option<int>, divisor: int)
    returns (reply: Reply<JsonList>)
    requires divisor > 0
    ensures httpMethod != "POST" ==> reply == HttpError(StatusMethodNotAllowed, MethodNotAllowedMessage)
    ensures httpMethod == "POST" && upload.MissingFile? ==> reply == HttpError(StatusBadRequest, "Failed to read file")
    ensures httpMethod == "POST" && upload.ReadFailed? ==>
      reply == HttpError(StatusBadRequest, "Failed to read file content")
    ensures httpMethod == "POST" && upload.FirstRead? ==>
      match CheckRows(Lines(upload.content), parse)
      case Failure(e) => reply == HttpError(StatusBadRequest, e)
      case Success(reqs) => reply.Ok? && AnswersList(reply.body, reqs, divisor)
  {
    if httpMethod != "POST" {
      return HttpError(StatusMethodNotAllowed, MethodNotAllowedMessage);
    }
    if upload.MissingFile? {
      return HttpError(StatusBadRequest, "Failed to read file");
    }
    if upload.ReadFailed? {
      return HttpError(StatusBadRequest, "Failed to read file content");
    }
    var lines := Lines(upload.content);
    reply := ProcessLines(lines, parse, divisor);
  }

  /** The per-line loop of HandleFileUpload and its encoding (handler.go:147-196): empty lines are
      skipped, the first line that fails to read or has a negative change ends the
      upload with 400 and that line's message, and otherwise the answers are
      encoded in line order. */
  method ProcessLines(lines: seq<string>, parse: string -> Option<int>, divisor: int)
    returns (reply: Reply<JsonList>)
    requires divisor > 0
    ensures match CheckRows(lines, parse)
      case Failure(e) => reply == HttpError(StatusBadRequest, e)
      case Success(reqs) => reply.Ok? && AnswersList(reply.body, reqs, divisor)
  {
    var responses: seq<ChangeResponse> := [];
    ghost var reqs: seq<ChangeRequest> := [];
    for i := 0 to |lines|
      invariant CheckRows(lines[..i], parse) == Success(reqs)
      invariant AnswersAll(responses, reqs, divisor)
    {
      var line := lines[i];
      if line == "" {
        RowSkipped(lines, i, parse);
        continue;
      }
      var row := ParseLine(line, parse);
      if row.Failure? {
        RowRejected(lines, i, parse, row.error);
        return HttpError(StatusBadRequest, row.error);
      }
      var request := row.value;
      var r := BuildResponse(request, divisor);
      if r.Failure? {
        RowRejected(lines, i, parse, r.error);
        return HttpError(StatusBadRequest, r.error);
      }
      RowAccepted(lines, i, parse, reqs, request);
      AnswersAppend(responses, reqs, r.value, request, divisor);
      responses := responses + [r.value];
      reqs := reqs + [request];
    }
    assert lines[..|lines|] == lines;
    return Ok(Encode(responses));
  }
}
