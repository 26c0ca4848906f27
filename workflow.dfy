/** The in-flight generation view and what one status poll does to it: backend stage
    states are mapped onto local statuses, the current step is derived, and the stage
    values decide whether polling ends. */
module Workflow {
  import opened Base
  import opened Text
  import opened Model

  datatype StageStatus = Pending | Active | Completed | Failed

  datatype Stage = Stage(id: string, name: string, status: StageStatus, description: string)

  /** The workflow shown while a generation runs; `conversationId` says whose it is. */
  datatype Workflow = Workflow(
    outputType: string,
    style: string,
    content: string,
    conversationId: Id,
    stages: seq<Stage>,
    currentStep: string,
    error: Option<string>)

  /** The body of a successful status poll: `stages` maps stage ids to backend states. */
  datatype StatusPayload = StatusPayload(stages: Option<map<string, string>>, error: Option<string>)

  const InitialStep := "Initializing..."
  const IdleStep := "Processing..."

  /** The four backend stages in pipeline order, all pending. */
  function InitialStages(): (r: seq<Stage>)
    ensures |r| == 4
    ensures r[0].id == "rag" && r[1].id == "summary" && r[2].id == "plan" && r[3].id == "generate"
    ensures forall i :: 0 <= i < |r| ==> r[i].status == Pending
  {
    [ Stage("rag", "RAG", Pending, "Building knowledge graph from documents"),
      Stage("summary", "Summary", Pending, "Extracting and summarizing key content"),
      Stage("plan", "Plan", Pending, "Planning content structure and sections"),
      Stage("generate", "Generate", Pending, "Generating final slides/poster") ]
  }

  function InitialWorkflow(outputType: string, style: string, content: string, convId: Id): (w: Workflow)
    ensures w.stages == InitialStages() && w.currentStep == InitialStep && w.error == None
    ensures w.conversationId == convId && w.outputType == outputType
    ensures w.style == style && w.content == content
  {
    Workflow(outputType, style, content, convId, InitialStages(), InitialStep, None)
  }

  /** `statusData.stages || {}`. */
  function Reported(p: StatusPayload): map<string, string> {
    p.stages.GetOr(map[])
  }

  /** The backend state of one stage, absent when the stage is not reported. */
  function Lookup(reported: map<string, string>, id: string): (r: Option<string>)
    ensures r.Some? <==> id in reported
    ensures r.Some? ==> r.value == reported[id]
  {
    if id in reported then Some(reported[id]) else None
  }

  /** Backend `completed`, `running` and `failed` become completed, active and failed;
      anything else, or no report, is pending. */
  function LocalStatus(backend: Option<string>): (r: StageStatus)
    ensures r == Completed <==> backend == Some("completed")
    ensures r == Active <==> backend == Some("running")
    ensures r == Failed <==> backend == Some("failed")
    ensures r == Pending <==> backend !in {Some("completed"), Some("running"), Some("failed")}
  {
    if backend == Some("completed") then Completed
    else if backend == Some("running") then Active
    else if backend == Some("failed") then Failed
    else Pending
  }

  /** Every stage keeps its id, name, description and position and takes its status
      from the report. */
  function ReconcileStages(stages: seq<Stage>, reported: map<string, string>): (r: seq<Stage>)
    ensures |r| == |stages|
    ensures forall i :: 0 <= i < |r| ==>
      r[i] == stages[i].(status := LocalStatus(Lookup(reported, stages[i].id)))
  {
    seq(|stages|, i requires 0 <= i < |stages| =>
      stages[i].(status := LocalStatus(Lookup(reported, stages[i].id))))
  }

  /** The index of the first active stage. */
  function FirstActive(stages: seq<Stage>): (r: Option<nat>)
    ensures r.Some? ==> r.value < |stages| && stages[r.value].status == Active
                        && forall k :: 0 <= k < r.value ==> stages[k].status != Active
    ensures r.None? ==> forall k :: 0 <= k < |stages| ==> stages[k].status != Active
  {
    if stages == [] then None
    else if stages[0].status == Active then Some(0)
    else match FirstActive(stages[1..])
      case None => None
      case Some(k) => Some(k + 1)
  }

  /** "name: description" of the first active stage, else the generic label. */
  function CurrentStep(stages: seq<Stage>): (r: string)
    ensures forall k :: 0 <= k < |stages| && stages[k].status == Active
                        && (forall j :: 0 <= j < k ==> stages[j].status != Active) ==>
              r == stages[k].name + ": " + stages[k].description
    ensures (forall j :: 0 <= j < |stages| ==> stages[j].status != Active) ==> r == IdleStep
  {
    match FirstActive(stages)
    case Some(k) =>
      stages[k].name + ": " + stages[k].description
    case None => IdleStep
  }

  /** One poll's update of the workflow; a cleared workflow stays cleared. */
  function Tick(prev: Option<Workflow>, p: StatusPayload): (r: Option<Workflow>)
    ensures prev.None? ==> r.None?
    ensures prev.Some? ==> (r.Some? &&
      var stages := ReconcileStages(prev.value.stages, Reported(p));
      r.value == prev.value.(stages := stages, currentStep := CurrentStep(stages), error := p.error))
  {
    match prev
    case None => None
    case Some(w) =>
      var stages := ReconcileStages(w.stages, Reported(p));
      Some(w.(stages := stages, currentStep := CurrentStep(stages), error := p.error))
  }

  /** Applying the same report twice is applying it once. */
  lemma TickIdempotent(prev: Option<Workflow>, p: StatusPayload)
    ensures Tick(Tick(prev, p), p) == Tick(prev, p)
  {
    if prev.Some? {
      var once := Tick(prev, p).value;
      var s1 := once.stages;
      var s2 := ReconcileStages(s1, Reported(p));
      forall i | 0 <= i < |s1| ensures s2[i] == s1[i] {
      }
      assert s2 == s1;
    }
  }

  /** The stage ids, names and descriptions survive every tick in order. */
  lemma TickKeepsStageShape(prev: Workflow, p: StatusPayload)
    ensures var w := Tick(Some(prev), p).value;
      && |w.stages| == |prev.stages|
      && forall i :: 0 <= i < |w.stages| ==>
           w.stages[i].id == prev.stages[i].id && w.stages[i].name == prev.stages[i].name
           && w.stages[i].description == prev.stages[i].description
  {
  }

  // ---------------------------------------------------------------- terminal decision

  /** `Object.values(stages).every(s => s === "completed")` (true for no values). */
  predicate AllCompleted(reported: map<string, string>) {
    forall k :: k in reported ==> reported[k] == "completed"
  }

  /** `Object.values(stages).some(s => s === "failed")`. */
  predicate AnyFailed(reported: map<string, string>) {
    exists k :: k in reported && reported[k] == "failed"
  }

  /** What a successful poll does after updating the workflow. */
  datatype TickAction =
    | KeepPolling     // not terminal
    | FetchResult     // every value completed and no fetch is underway
    | ReportFailure   // some value failed
    | StopOnly        // every value completed but the session's fetch is already underway

  function Decide(reported: map<string, string>, fetching: bool): (r: TickAction)
    ensures r == KeepPolling <==> !AllCompleted(reported) && !AnyFailed(reported)
    ensures r == FetchResult <==> AllCompleted(reported) && !fetching
    ensures r == ReportFailure <==> AnyFailed(reported)
    ensures r == StopOnly <==> AllCompleted(reported) && fetching
  {
    if !(AllCompleted(reported) || AnyFailed(reported)) then KeepPolling
    else if AllCompleted(reported) && !fetching then FetchResult
    else if AnyFailed(reported) then ReportFailure
    else StopOnly
  }

  /** A report with no stage values counts as all completed. */
  lemma EmptyReportIsTerminal(p: StatusPayload)
    requires p.stages.None? || p.stages == Some(map[])
    ensures Decide(Reported(p), false) == FetchResult
  {
  }

  /** When every stage of the workflow is reported and all values are completed,
      the tick shows every stage completed and no active step. */
  lemma CompletedReportCompletesStages(prev: Workflow, p: StatusPayload)
    requires AllCompleted(Reported(p))
    requires forall i :: 0 <= i < |prev.stages| ==> prev.stages[i].id in Reported(p)
    ensures var w := Tick(Some(prev), p).value;
      (forall i :: 0 <= i < |w.stages| ==> w.stages[i].status == Completed) && w.currentStep == IdleStep
  {
    var w := Tick(Some(prev), p).value;
  }

  /** The text of the error message a failed poll appends. */
  const FailurePrefix := "Generation failed: "
  const UnknownError := "Unknown error occurred"

  function FailureText(error: Option<string>): (r: string)
    ensures Present(error) ==> r == FailurePrefix + error.value
    ensures !Present(error) ==> r == FailurePrefix + UnknownError
  {
    FailurePrefix + OrElse(error, UnknownError)
  }
}
