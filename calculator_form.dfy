/** The single-calculation controller (frontend/src/components/ChangeCalculatorForm.tsx):
    its dropdown settings, the config it pushes and fetches, and the two button
    handlers that write the shared cells. `parseFloat` is a parse oracle from an
    amount's text to cents (`None` for NaN); each awaited request is a parameter
    saying how its promise settles. */
module CalculatorForm {
  import opened Wrappers
  import opened Api
  import opened Atoms

  const InvalidNumbersMessage: string := "Please enter valid numbers"
  const UnderpaidMessage: string := "Amount paid must be greater than or equal to amount owed"
  const CalculateFallback: string := "Failed to calculate change"

  // ---------------------------------------------------------------------------
  // Config codec
  // ---------------------------------------------------------------------------

  /** The dropdown settings: random divisor, country and special case. */
  datatype Draft = Draft(divisor: int, country: string, specialCase: string)

  /** The settings before any config arrives (ChangeCalculatorForm.tsx:38-40). */
  const DefaultDraft: Draft := Draft(3, "US", "None")

  /** A config as the client reads it from JSON: any field may be missing. */
  datatype FetchedConfig = FetchedConfig(
    randomDivisor: Option<int>,
    country: Option<string>,
    specialCases: Option<seq<string>>)

  /** The body of the config push (ChangeCalculatorForm.tsx:66-70): the special
      case "None" is sent as no special cases, any other as a one-element list. */
  function EncodeConfig(d: Draft): (body: ConfigBody)
    ensures body.randomDivisor == d.divisor && body.country == d.country
    ensures d.specialCase == "None" <==> body.specialCases == []
    ensures d.specialCase != "None" ==> body.specialCases == [d.specialCase]
  {
    ConfigBody(d.divisor, d.country, if d.specialCase == "None" then [] else [d.specialCase])
  }

  /** Reading a fetched config into the settings (ChangeCalculatorForm.tsx:56-58):
      a falsy divisor (missing or 0) becomes 3, a falsy country (missing or "")
      becomes "US", and only the first special case is kept, "None" when there is
      none or it is "". */
  function DecodeConfig(f: FetchedConfig): (d: Draft)
    ensures d.divisor != 0 && d.country != "" && d.specialCase != ""
    ensures f.randomDivisor.Some? && f.randomDivisor.value != 0 ==> d.divisor == f.randomDivisor.value
    ensures f.country.Some? && f.country.value != "" ==> d.country == f.country.value
    ensures f.specialCases.Some? && |f.specialCases.value| > 0 && f.specialCases.value[0] != "" ==>
              d.specialCase == f.specialCases.value[0]
    ensures f.randomDivisor.None? || f.randomDivisor.value == 0 ==> d.divisor == 3
    ensures f.country.None? || f.country.value == "" ==> d.country == "US"
    ensures f.specialCases.None? || |f.specialCases.value| == 0 || f.specialCases.value[0] == "" ==>
              d.specialCase == "None"
  {
    Draft(
      if f.randomDivisor.None? || f.randomDivisor.value == 0 then 3 else f.randomDivisor.value,
      if f.country.None? || f.country.value == "" then "US" else f.country.value,
      if f.specialCases.None? || |f.specialCases.value| == 0 || f.specialCases.value[0] == "" then "None"
      else f.specialCases.value[0])
  }

  /** A pushed body fetched back unchanged: every field present. */
  function AsFetched(body: ConfigBody): FetchedConfig {
    FetchedConfig(Some(body.randomDivisor), Some(body.country), Some(body.specialCases))
  }

  /** Pushing settings and fetching them back gives the same settings exactly when
      none of them is falsy (divisor 0, country "", special case ""). */
  lemma ConfigRoundTrip(d: Draft)
    ensures DecodeConfig(AsFetched(EncodeConfig(d))) == d <==>
              d.divisor != 0 && d.country != "" && d.specialCase != ""
  {
    if d.specialCase != "None" && d.specialCase != "" {
      assert EncodeConfig(d).specialCases[0] == d.specialCase;
    }
  }

  /** Fetching a config and pushing it back keeps a truthy divisor and country
      and keeps only the first special case (when it is neither "" nor "None"). */
  lemma ConfigFetchThenPush(f: FetchedConfig)
    ensures f.randomDivisor.Some? && f.randomDivisor.value != 0 ==>
              EncodeConfig(DecodeConfig(f)).randomDivisor == f.randomDivisor.value
    ensures f.country.Some? && f.country.value != "" ==>
              EncodeConfig(DecodeConfig(f)).country == f.country.value
    ensures f.specialCases.Some? && |f.specialCases.value| > 0
            && f.specialCases.value[0] != "" && f.specialCases.value[0] != "None" ==>
              EncodeConfig(DecodeConfig(f)).specialCases == [f.specialCases.value[0]]
  {
  }

  // ---------------------------------------------------------------------------
  // The calculate and clear handlers as transitions
  // ---------------------------------------------------------------------------

  /** What a handler leaves behind: the cells and the requests it sent, in order. */
  datatype Step = Step(cells: Cells, sent: seq<Dispatch>)

  /** Whether the two amount texts parse and pay at least what is owed. */
  predicate Submittable(c: Cells, parse: string -> Option<int>) {
    parse(c.amountOwed).Some? && parse(c.amountPaid).Some?
    && parse(c.amountOwed).value <= parse(c.amountPaid).value
  }

  /** handleCalculate (ChangeCalculatorForm.tsx:74-105) run to completion: clear
      error and result; reject unparsable or underpaid amounts without touching
      loading; otherwise set loading, push the config, and only if that promise
      resolves (whatever its HTTP status) ask for the calculation; store the
      result or the error, and drop loading whatever happened. */
  function AfterCalculate(c: Cells, draft: Draft, parse: string -> Option<int>,
                          push: Outcome<int>, calculation: Outcome<ChangeResponse>): Step
  {
    var cleared := c.(error := None, changeResult := None);
    var owed := parse(c.amountOwed);
    var paid := parse(c.amountPaid);
    if owed.None? || paid.None? then Step(cleared.(error := Some(InvalidNumbersMessage)), [])
    else if paid.value < owed.value then Step(cleared.(error := Some(UnderpaidMessage)), [])
    else
      var loadingCells := cleared.(loading := true);
      var pushed := [Dispatch(PushConfig(EncodeConfig(draft)), loadingCells)];
      match push
      case Rejected(reason) =>
        Step(cleared.(error := Some(MessageOf(reason, CalculateFallback)), loading := false), pushed)
      case Resolved(_) =>
        var sent := pushed + [Dispatch(Calculate(owed.value, paid.value), loadingCells)];
        match calculation
        case Rejected(reason) =>
          Step(cleared.(error := Some(MessageOf(reason, CalculateFallback)), loading := false), sent)
        case Resolved(response) =>
          Step(cleared.(changeResult := Some(response), loading := false), sent)
  }

  /** Validation comes before any request: nothing is sent exactly when the
      amounts do not parse or are underpaid, and then the error names the reason,
      the result is cleared and loading is left as it was. Equal amounts pass. */
  lemma ValidationBeforeDispatch(c: Cells, draft: Draft, parse: string -> Option<int>,
                                 push: Outcome<int>, calculation: Outcome<ChangeResponse>)
    ensures var s := AfterCalculate(c, draft, parse, push, calculation);
      && (s.sent == [] <==> !Submittable(c, parse))
      && (parse(c.amountOwed).None? || parse(c.amountPaid).None? ==>
            s.cells == c.(error := Some(InvalidNumbersMessage), changeResult := None))
      && (parse(c.amountOwed).Some? && parse(c.amountPaid).Some?
          && parse(c.amountPaid).value < parse(c.amountOwed).value ==>
            s.cells == c.(error := Some(UnderpaidMessage), changeResult := None))
  {
  }

  /** On valid amounts: the config push goes first, when the error and result are
      cleared and loading is set and nothing else has changed; the calculation asks
      for exactly the parsed amounts, is sent only after a resolved push and sees
      the same cells; loading is dropped at the end on every path. */
  lemma DispatchOrder(c: Cells, draft: Draft, parse: string -> Option<int>,
                      push: Outcome<int>, calculation: Outcome<ChangeResponse>)
    requires Submittable(c, parse)
    ensures var s := AfterCalculate(c, draft, parse, push, calculation);
      && !s.cells.loading
      && 1 <= |s.sent| <= 2
      && s.sent[0] == Dispatch(PushConfig(EncodeConfig(draft)),
                               c.(error := None, changeResult := None, loading := true))
      && (|s.sent| == 2 <==> push.Resolved?)
      && (|s.sent| == 2 ==>
            s.sent[1] == Dispatch(Calculate(parse(c.amountOwed).value, parse(c.amountPaid).value),
                                  c.(error := None, changeResult := None, loading := true)))
  {
  }

  /** On valid amounts exactly one of result and error is set: the result is the
      calculation's response when both promises resolve; otherwise the error is the
      rejection's message, or the fallback for a thrown non-Error. */
  lemma ResultOrError(c: Cells, draft: Draft, parse: string -> Option<int>,
                      push: Outcome<int>, calculation: Outcome<ChangeResponse>)
    requires Submittable(c, parse)
    ensures var s := AfterCalculate(c, draft, parse, push, calculation);
      && (s.cells.changeResult.Some? <==> s.cells.error.None?)
      && (push.Resolved? && calculation.Resolved? ==> s.cells.changeResult == Some(calculation.value))
      && (push.Rejected? ==> s.cells.error == Some(MessageOf(push.reason, CalculateFallback)))
      && (push.Resolved? && calculation.Rejected? ==>
            s.cells.error == Some(MessageOf(calculation.reason, CalculateFallback)))
  {
  }

  /** handleCalculate never writes the amount texts or the batch results. */
  lemma CalculateLeavesOtherCells(c: Cells, draft: Draft, parse: string -> Option<int>,
                                  push: Outcome<int>, calculation: Outcome<ChangeResponse>)
    ensures var s := AfterCalculate(c, draft, parse, push, calculation);
      s.cells.amountOwed == c.amountOwed && s.cells.amountPaid == c.amountPaid
      && s.cells.batchResults == c.batchResults
  {
  }

  /** handleClear (ChangeCalculatorForm.tsx:107-112): both amount texts, the
      result and the error back to empty. */
  function AfterClear(c: Cells): Cells {
    c.(amountOwed := "", amountPaid := "", changeResult := None, error := None)
  }

  /** Clearing puts the amount, result and error cells at their declared
      defaults, keeps loading and the batch results, and a second clear changes
      nothing. */
  lemma ClearProperties(c: Cells)
    ensures var d := AfterClear(c);
      && d.amountOwed == Defaults.amountOwed && d.amountPaid == Defaults.amountPaid
      && d.changeResult == Defaults.changeResult && d.error == Defaults.error
      && d.loading == c.loading && d.batchResults == c.batchResults
      && AfterClear(d) == d
  {
  }

  // ---------------------------------------------------------------------------
  // The component
  // ---------------------------------------------------------------------------

  /** One mounted form: the store it shares, and its own dropdown settings. */
  class Form {
    const store: Store
    var divisor: int
    var country: string
    var specialCase: string

    function Settings(): Draft
      reads this
    {
      Draft(divisor, country, specialCase)
    }

    /** A form on `store` starts with the default settings. */
    constructor (store: Store)
      ensures this.store == store
      ensures Settings() == DefaultDraft
    {
      this.store := store;
      divisor := 3;
      country := "US";
      specialCase := "None";
    }

    /** The mount effect (ChangeCalculatorForm.tsx:52-60): a fetched config is
        decoded into the settings; a failed fetch leaves them as they were. */
    method LoadConfig(fetched: Option<FetchedConfig>)
      modifies this
      ensures Settings() == if fetched.None? then old(Settings()) else DecodeConfig(fetched.value)
    {
      if fetched.Some? {
        var cfg := fetched.value;
        divisor := if cfg.randomDivisor.None? || cfg.randomDivisor.value == 0 then 3 else cfg.randomDivisor.value;
        country := if cfg.country.None? || cfg.country.value == "" then "US" else cfg.country.value;
        specialCase :=
          if cfg.specialCases.None? || |cfg.specialCases.value| == 0 || cfg.specialCases.value[0] == "" then "None"
          else cfg.specialCases.value[0];
      }
    }

    /** handleCalculate, writing the cells in the order the component does. */
    method HandleCalculate(parse: string -> Option<int>, push: Outcome<int>, calculation: Outcome<ChangeResponse>)
      modifies store
      ensures store.Snapshot() == AfterCalculate(old(store.Snapshot()), Settings(), parse, push, calculation).cells
      ensures store.sent == old(store.sent) + AfterCalculate(old(store.Snapshot()), Settings(), parse, push, calculation).sent
    {
      store.error := None;
      store.changeResult := None;
      var owed := parse(store.amountOwed);
      var paid := parse(store.amountPaid);
      if owed.None? || paid.None? {
        store.error := Some(InvalidNumbersMessage);
        return;
      }
      if paid.value < owed.value {
        store.error := Some(UnderpaidMessage);
        return;
      }
      store.loading := true;
      store.sent := store.sent + [Dispatch(PushConfig(EncodeConfig(Settings())), store.Snapshot())];
      match push {
        case Rejected(reason) =>
          store.error := Some(MessageOf(reason, CalculateFallback));
        case Resolved(_) =>
          store.sent := store.sent + [Dispatch(Calculate(owed.value, paid.value), store.Snapshot())];
          match calculation {
            case Rejected(reason) =>
              store.error := Some(MessageOf(reason, CalculateFallback));
            case Resolved(response) =>
              store.changeResult := Some(response);
          }
      }
      store.loading := false;
    }

    /** handleClear. */
    method HandleClear()
      modifies store
      ensures store.Snapshot() == AfterClear(old(store.Snapshot()))
      ensures store.sent == old(store.sent)
    {
      store.amountOwed := "";
      store.amountPaid := "";
      store.changeResult := None;
      store.error := None;
    }
  }
}
