/** The application shell's submission guard: the problem text, the loading
    flag and the last analysis, and what `handleVisualize` and the submit
    button do with them. The analysis service is an outcome handed in by the
    caller. */
module Shell {
  import opened Wrappers
  import opened JsString
  import opened Types

  /** What the analysis service answers: a record, or a thrown error. */
  datatype AnalysisOutcome = Analyzed(result: VisualizationData) | AnalysisFailed

  datatype AppState = AppState(input: string, loading: bool, data: Option<VisualizationData>)

  /** `handleVisualize` goes past its first line, and calls the service, exactly
      when the trimmed input is non-empty. It does not look at `loading`. */
  predicate Dispatches(s: AppState)
    ensures Dispatches(s) <==> !AllWhitespace(s.input)
  {
    TrimEmptyIff(s.input);
    Trim(s.input) != []
  }

  /** The submit button is enabled unless a call is loading or the trimmed
      input is empty; an enabled button always leads to a call. */
  predicate SubmitEnabled(s: AppState)
    ensures SubmitEnabled(s) ==> Dispatches(s)
  {
    !(s.loading || Trim(s.input) == [])
  }

  /** `handleVisualize` up to the call: blank input returns at once, otherwise
      `loading` is set while the call is pending. */
  function Begin(s: AppState): (r: AppState)
    ensures r.input == s.input && r.data == s.data
    ensures r.loading <==> s.loading || Dispatches(s)
  {
    if Dispatches(s) then s.(loading := true) else s
  }

  /** `handleVisualize` after the call: a result replaces `data`, a failure
      keeps it, and `loading` is cleared either way. */
  function Settle(s: AppState, outcome: AnalysisOutcome): (r: AppState)
    ensures !r.loading && r.input == s.input
    ensures outcome.AnalysisFailed? ==> r.data == s.data
  {
    var data := if outcome.Analyzed? then Some(outcome.result) else s.data;
    s.(data := data, loading := false)
  }

  /** The whole of `handleVisualize` once the call has completed. */
  function Visualize(s: AppState, outcome: AnalysisOutcome): (r: AppState)
    ensures r.input == s.input
    ensures r.data != s.data ==> outcome.Analyzed? && r.data == Some(outcome.result)
  {
    if Dispatches(s) then Settle(Begin(s), outcome) else s
  }

  /** A click on the submit button: a disabled button delivers no click. */
  function Click(s: AppState): (r: AppState)
    ensures r.input == s.input && r.data == s.data
    ensures r != s ==> !s.loading && r.loading
  {
    if SubmitEnabled(s) then Begin(s) else s
  }

  /** The button is enabled exactly when nothing is loading and the input has
      a character that is not white space. */
  lemma SubmitEnabledIff(s: AppState)
    ensures SubmitEnabled(s) <==> !s.loading && !AllWhitespace(s.input)
  {
    TrimEmptyIff(s.input);
  }

  /** Blank input: `handleVisualize` returns before touching any state. */
  lemma BlankInputIgnored(s: AppState, outcome: AnalysisOutcome)
    requires AllWhitespace(s.input)
    ensures !Dispatches(s) && Begin(s) == s && Visualize(s, outcome) == s
  {
    TrimEmptyIff(s.input);
  }

  /** While the call is pending, `loading` is set and nothing else changed. */
  lemma PendingIsLoading(s: AppState)
    requires Dispatches(s)
    ensures Begin(s) == s.(loading := true)
  {
  }

  /** A successful analysis replaces `data` wholesale and clears `loading`. */
  lemma SuccessReplacesData(s: AppState, result: VisualizationData)
    requires Dispatches(s)
    ensures Visualize(s, Analyzed(result)) == AppState(s.input, false, Some(result))
  {
  }

  /** A failed analysis keeps `data`, absent or not, and clears `loading`. */
  lemma FailureKeepsData(s: AppState)
    requires Dispatches(s)
    ensures Visualize(s, AnalysisFailed) == s.(loading := false)
  {
  }

  /** Whatever the outcome, `loading` is false once the call has completed;
      only a blank input, which makes no call, leaves it as it was. */
  lemma LoadingClearedAfterCall(s: AppState, outcome: AnalysisOutcome)
    ensures !Settle(s, outcome).loading
    ensures Visualize(s, outcome).loading <==> s.loading && !Dispatches(s)
    ensures Visualize(s, outcome).input == s.input
  {
  }

  /** The handler itself dispatches a second request while one is pending; the
      disabled button is what prevents it, so a click while loading is a no-op. */
  lemma ButtonGuardsPendingCall(s: AppState)
    requires s.loading && !AllWhitespace(s.input)
    ensures Dispatches(s) && !SubmitEnabled(s) && Click(s) == s
  {
    TrimEmptyIff(s.input);
  }

  /** A click starts a call exactly when the button is enabled. */
  lemma ClickStartsCallIff(s: AppState)
    ensures Click(s) != s <==> SubmitEnabled(s)
    ensures SubmitEnabled(s) ==> Click(s) == s.(loading := true)
  {
  }

  /** The shell as an object with the three state variables. */
  class App {
    var input: string
    var loading: bool
    var data: Option<VisualizationData>

    function State(): AppState
      reads this
    {
      AppState(input, loading, data)
    }

    constructor (input: string)
      ensures State() == AppState(input, false, None)
    {
      this.input := input;
      loading := false;
      data := None;
    }

    /** The text area's change handler. */
    method Edit(text: string)
      modifies this
      ensures State() == old(State()).(input := text)
    {
      input := text;
    }

    /** The `disabled` condition of the submit button, negated. */
    method CanSubmit() returns (enabled: bool)
      ensures enabled <==> !loading && exists k :: 0 <= k < |input| && !IsWhitespace(input[k])
    {
      TrimEmptyIff(input);
      enabled := !(loading || Trim(input) == []);
    }

    /** `handleVisualize` up to the `await`: returns the text sent to the
        service, or nothing when the input is blank. */
    method Submit() returns (request: Option<string>)
      modifies this
      ensures request == if Dispatches(old(State())) then Some(old(input)) else None
      ensures State() == Begin(old(State()))
    {
      if Trim(input) == [] {
        return None;
      }
      loading := true;
      request := Some(input);
    }

    /** `handleVisualize` after the `await`: store a result, keep the old data
        on a failure, and clear the loading flag in either case. */
    method Complete(outcome: AnalysisOutcome)
      modifies this
      ensures State() == Settle(old(State()), outcome)
    {
      if outcome.Analyzed? {
        data := Some(outcome.result);
      }
      loading := false;
    }

    /** `handleVisualize` from start to end, with the service as a function of
        the text it is sent. */
    method HandleVisualize(analyze: string -> AnalysisOutcome)
      modifies this
      ensures State() == Visualize(old(State()), analyze(old(input)))
    {
      var request := Submit();
      if request.Some? {
        Complete(analyze(request.value));
      }
    }
  }
}
