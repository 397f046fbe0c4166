/** `SummarizeState` and the mutators `SummarizeViewModel` applies to it.
    Each mutator is one atomic step; `Start` runs them in the order the view
    model does once the language model exists. */
module SummarizeViewModel {
  import opened Wrappers

  /** `SummarizeState.ModelDownloading`; progress is kept as a real number. */
  datatype ModelDownloading = Downloading(progress: real) | Done

  datatype SummarizeState = SummarizeState(
    modelDownloadingState: ModelDownloading,
    inProgress: bool,
    summary: string
  )

  const DefaultState := SummarizeState(Downloading(0.0), false, "")

  lemma DefaultStateShape()
    ensures DefaultState.modelDownloadingState == Downloading(0.0)
    ensures !DefaultState.inProgress && DefaultState.summary == ""
  {
  }

  function SetDownloadProgress(st: SummarizeState, progress: real): (r: SummarizeState)
    ensures r.modelDownloadingState == Downloading(progress)
    ensures r.inProgress == st.inProgress && r.summary == st.summary
  {
    st.(modelDownloadingState := Downloading(progress))
  }

  function SetDownloadingDone(st: SummarizeState): (r: SummarizeState)
    ensures r.modelDownloadingState == Done
    ensures r.inProgress == st.inProgress && r.summary == st.summary
  {
    st.(modelDownloadingState := Done)
  }

  /** A summary was asked for: in progress, with the old summary cleared. */
  function SetSummaryRequested(st: SummarizeState): (r: SummarizeState)
    ensures r.inProgress && r.summary == ""
    ensures r.modelDownloadingState == st.modelDownloadingState
  {
    st.(inProgress := true, summary := "")
  }

  /** The model has answered: no longer in progress, summary kept. */
  function SetModelResponded(st: SummarizeState): (r: SummarizeState)
    ensures !r.inProgress
    ensures r.summary == st.summary && r.modelDownloadingState == st.modelDownloadingState
  {
    st.(inProgress := false)
  }

  /** Appends a delta; a `nil` delta counts as the empty text. */
  function UpdateSummary(st: SummarizeState, delta: Option<string>): (r: SummarizeState)
    ensures delta.None? ==> r == st
    ensures delta.Some? ==> r.summary == st.summary + delta.value
    ensures r.inProgress == st.inProgress && r.modelDownloadingState == st.modelDownloadingState
  {
    st.(summary := st.summary + delta.GetOr(""))
  }

  /** The text a sequence of deltas stands for. */
  function Joined(deltas: seq<Option<string>>): string {
    if deltas == [] then "" else deltas[0].GetOr("") + Joined(deltas[1..])
  }

  /** Applies the deltas one after another, in arrival order. */
  function ApplyDeltas(st: SummarizeState, deltas: seq<Option<string>>): SummarizeState
    decreases |deltas|
  {
    if deltas == [] then st else ApplyDeltas(UpdateSummary(st, deltas[0]), deltas[1..])
  }

  /** A run of deltas leaves the old summary followed by the deltas'
      texts, in order, and nothing else changes. */
  lemma {:induction false} ApplyDeltasConcatenates(st: SummarizeState, deltas: seq<Option<string>>)
    ensures ApplyDeltas(st, deltas).summary == st.summary + Joined(deltas)
    ensures ApplyDeltas(st, deltas).inProgress == st.inProgress
    ensures ApplyDeltas(st, deltas).modelDownloadingState == st.modelDownloadingState
    decreases |deltas|
  {
    if deltas != [] {
      var next := UpdateSummary(st, deltas[0]);
      ApplyDeltasConcatenates(next, deltas[1..]);
      assert st.summary + deltas[0].GetOr("") + Joined(deltas[1..])
             == st.summary + (deltas[0].GetOr("") + Joined(deltas[1..]));
    }
  }

  /** `start()`: every state it publishes, in order. Without a language
      model (its creation threw) nothing is published. With one: download
      done, summary requested, one state per delta, model responded. */
  function Start(st: SummarizeState, agentCreated: bool, deltas: seq<Option<string>>): (trace: seq<SummarizeState>)
    ensures !agentCreated ==> trace == []
    ensures agentCreated ==>
              |trace| == |deltas| + 3
              && trace[0] == SetDownloadingDone(st)
              && trace[1] == SetSummaryRequested(trace[0])
              && (forall i :: 0 <= i < |deltas| ==> trace[i + 2] == UpdateSummary(trace[i + 1], deltas[i]))
              && trace[|trace| - 1] == SetModelResponded(trace[|trace| - 2])
  {
    if !agentCreated then []
    else
      var done := SetDownloadingDone(st);
      var requested := SetSummaryRequested(done);
      var streamed := Stream(requested, deltas);
      [done] + streamed + [SetModelResponded(if deltas == [] then requested else streamed[|streamed| - 1])]
  }

  /** The state after each delta, starting from `st`. */
  function Stream(st: SummarizeState, deltas: seq<Option<string>>): (states: seq<SummarizeState>)
    ensures |states| == |deltas| + 1 && states[0] == st
    ensures forall i :: 0 <= i < |deltas| ==> states[i + 1] == UpdateSummary(states[i], deltas[i])
    decreases |deltas|
  {
    if deltas == [] then [st]
    else [st] + Stream(UpdateSummary(st, deltas[0]), deltas[1..])
  }

  /** After a successful start the download is done, nothing is in
      progress, and the summary is exactly the deltas' texts in order. */
  lemma StartEndsWithJoinedSummary(st: SummarizeState, deltas: seq<Option<string>>)
    ensures var trace := Start(st, true, deltas);
            var last := trace[|trace| - 1];
            last.modelDownloadingState == Done && !last.inProgress && last.summary == Joined(deltas)
  {
    var requested := SetSummaryRequested(SetDownloadingDone(st));
    StreamEndsAtApplied(requested, deltas);
    ApplyDeltasConcatenates(requested, deltas);
  }

  lemma {:induction false} StreamEndsAtApplied(st: SummarizeState, deltas: seq<Option<string>>)
    ensures Stream(st, deltas)[|deltas|] == ApplyDeltas(st, deltas)
    decreases |deltas|
  {
    if deltas != [] {
      StreamEndsAtApplied(UpdateSummary(st, deltas[0]), deltas[1..]);
    }
  }
}
